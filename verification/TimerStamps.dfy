/** The order in which timers fire: by deadline, and timers with the same deadline in the order of their starts. */
module TimerStamps {
  import opened Basics
  import opened Ring
  import opened TimerOrder
  import opened TimerModel
  import opened TimerRuns

  /** One firing: when, with which deadline, and with the number of the start that set it. */
  datatype Firing = Firing(t: Id, at: int, due: int, stamp: int)

  /** The timers with a running number for every start, the restarts of periodic timers included. */
  datatype Stamped = Stamped(s: Timers, stamp: map<Id, int>, clock: int, log: seq<Firing>)

  ghost predicate Before(t: Id, u: Id, due: map<Id, int>, stamp: map<Id, int>)
    requires t in due && u in due && t in stamp && u in stamp
  {
    due[t] < due[u] || (due[t] == due[u] && stamp[t] < stamp[u])
  }

  ghost predicate Known(l: seq<Id>, due: map<Id, int>, stamp: map<Id, int>, clock: int)
  {
    forall i :: 0 <= i < |l| ==> l[i] in due && l[i] in stamp && stamp[l[i]] < clock
  }

  /** By deadline, ties in start order. */
  ghost predicate InOrder(l: seq<Id>, due: map<Id, int>, stamp: map<Id, int>, clock: int)
  {
    Known(l, due, stamp, clock) && forall i, j :: 0 <= i < j < |l| ==> Before(l[i], l[j], due, stamp)
  }

  /** A timer with a new number goes to its stable place. */
  lemma StableInOrder(l: seq<Id>, t: Id, d: int, due: map<Id, int>, stamp: map<Id, int>, clock: int)
    requires InOrder(l, due, stamp, clock) && t !in l && Covers(due, l)
    ensures InOrder(Stable(l, t, d, due), due[t := d], stamp[t := clock], clock + 1)
  {
    StableIsPlace(l, t, d, due);
    var k, r := Place(l, d, due), Stable(l, t, d, due);
    var due', stamp' := due[t := d], stamp[t := clock];
    forall i | 0 <= i < |l| ensures l[i] in due' && l[i] in stamp' && due'[l[i]] == due[l[i]] && stamp'[l[i]] == stamp[l[i]] {
      assert l[i] in l;
    }
    forall i | 0 <= i < |r| ensures r[i] == if i < k then l[i] else if i == k then t else l[i - 1] { }
    forall i, j | 0 <= i < j < |r| ensures Before(r[i], r[j], due', stamp') {
      if i == k { assert due[l[k]] > d && (k < j - 1 ==> Before(l[k], l[j - 1], due, stamp)); }
      if i < j && i != k && j != k {
        assert Before(l[if i < k then i else i - 1], l[if j < k then j else j - 1], due, stamp);
      }
    }
  }

  lemma {:induction false} DroppedInOrder(l: seq<Id>, t: Id, due: map<Id, int>, stamp: map<Id, int>, clock: int)
    requires InOrder(l, due, stamp, clock) && Distinct(l)
    ensures InOrder(Dropped(l, t), due, stamp, clock)
    decreases |l|
  {
    if l != [] && l[0] != t {
      PopDistinct(l);
      DroppedInOrder(l[1..], t, due, stamp, clock);
      DroppedMembers(l[1..], t);
      var d := Dropped(l[1..], t);
      forall i | 0 <= i < |d| ensures d[i] in due && d[i] in stamp && Before(l[0], d[i], due, stamp) {
        assert d[i] in d;
        var j :| 0 <= j < |l[1..]| && l[1..][j] == d[i];
        assert l[j + 1] == d[i];
      }
      assert Dropped(l, t) == [l[0]] + d;
    }
  }

  // ---- the steps

  /** The numbers after the timers of l fired and the periodic ones restarted. */
  function Restamped(l: seq<Id>, periodic: set<Id>, stamp: map<Id, int>, clock: int): map<Id, int>
    decreases |l|
  {
    if l == [] then stamp
    else Restamped(l[1..], periodic, if l[0] in periodic then stamp[l[0] := clock] else stamp, clock + 1)
  }

  ghost function Logged(l: seq<Id>, now: int, due: map<Id, int>, stamp: map<Id, int>, clock: int): (r: seq<Firing>)
    requires Known(l, due, stamp, clock)
    ensures |r| == |l| && forall i :: 0 <= i < |l| ==> r[i] == Firing(l[i], now, due[l[i]], stamp[l[i]])
  {
    seq(|l|, i requires 0 <= i < |l| => Firing(l[i], now, due[l[i]], stamp[l[i]]))
  }

  ghost predicate EarlierFiring(a: Firing, b: Firing)
  {
    a.at < b.at || (a.at == b.at && (a.due < b.due || (a.due == b.due && a.stamp < b.stamp)))
  }

  /** By tick, within a tick by deadline, and with the same deadline in start order. */
  ghost predicate LogInOrder(log: seq<Firing>)
  {
    forall i, j :: 0 <= i < j < |log| ==> EarlierFiring(log[i], log[j])
  }

  /** The log says what fired. */
  ghost predicate LogTells(log: seq<Firing>, fired: seq<(Id, int)>, now: int)
  {
    |log| == |fired| && forall i :: 0 <= i < |log| ==> fired[i] == (log[i].t, log[i].at) && log[i].at <= now
  }

  ghost predicate StampInv(x: Stamped)
  {
    && RunInv(x.s) && InOrder(Queue(x.s), x.s.due, x.stamp, x.clock)
    && LogInOrder(x.log) && LogTells(x.log, x.s.fired, x.s.now)
  }

  lemma PrefixInOrder(l: seq<Id>, n: nat, due: map<Id, int>, stamp: map<Id, int>, clock: int)
    requires InOrder(l, due, stamp, clock) && n <= |l|
    ensures InOrder(l[..n], due, stamp, clock) && InOrder(l[n..], due, stamp, clock)
  {
    forall i, j | 0 <= i < j < |l[n..]| ensures Before(l[n..][i], l[n..][j], due, stamp) { assert Before(l[n + i], l[n + j], due, stamp); }
  }

  ghost function StampedNext(x: Stamped, e: Event): Stamped
    requires StampInv(x) && Enabled(x.s, e)
  {
    match e
    case Start(t) => x.(s := Next(x.s, e), stamp := x.stamp[t := x.clock], clock := x.clock + 1)
    case Stop(_) => x.(s := Next(x.s, e))
    case SetTime(_, _) => x.(s := Next(x.s, e))
    case Tick =>
      var l := DueNext(x.s);
      PrefixInOrder(Queue(x.s), |l|, x.s.due, x.stamp, x.clock);
      Stamped(Next(x.s, Tick), Restamped(l, x.s.periodic, x.stamp, x.clock), x.clock + |l|,
              x.log + Logged(l, x.s.now + 1, x.s.due, x.stamp, x.clock))
  }

  lemma MovedInOrder(q: seq<Id>, t: Id, d: int, due: map<Id, int>, stamp: map<Id, int>, clock: int)
    requires InOrder(q, due, stamp, clock) && Distinct(q)
    ensures Covers(due, Dropped(q, t))
    ensures InOrder(Stable(Dropped(q, t), t, d, due), due[t := d], stamp[t := clock], clock + 1)
  {
    DroppedInOrder(q, t, due, stamp, clock);
    DroppedMembers(q, t);
    StableInOrder(Dropped(q, t), t, d, due, stamp, clock);
  }

  lemma StartInOrder(x: Stamped, t: Id)
    requires StampInv(x) && t in x.s.init
    ensures StampInv(StampedNext(x, Start(t)))
  {
    NextStart(x.s, t);
    Restarted(x, t, Next(x.s, Start(t)));
  }

  lemma Restarted(x: Stamped, t: Id, r: Timers)
    requires StampInv(x) && RunInv(r) && t in x.s.init && Covers(x.s.due, Dropped(Queue(x.s), t))
    requires Queue(r) == Stable(Dropped(Queue(x.s), t), t, x.s.now + x.s.init[t], x.s.due)
    requires r.due == x.s.due[t := x.s.now + x.s.init[t]] && r.now == x.s.now && r.fired == x.s.fired
    ensures StampInv(x.(s := r, stamp := x.stamp[t := x.clock], clock := x.clock + 1))
  {
    QueueIsSorted(x.s);
    RestartedQueue(Queue(x.s), Queue(r), t, x.s.now + x.s.init[t], x.s.due, r.due, x.stamp, x.clock);
  }

  lemma RestartedQueue(q: seq<Id>, q': seq<Id>, t: Id, d: int, due: map<Id, int>, due': map<Id, int>, stamp: map<Id, int>, clock: int)
    requires InOrder(q, due, stamp, clock) && Distinct(q) && Covers(due, Dropped(q, t))
    requires q' == Stable(Dropped(q, t), t, d, due) && due' == due[t := d]
    ensures InOrder(q', due', stamp[t := clock], clock + 1)
  {
    MovedInOrder(q, t, d, due, stamp, clock);
  }

  lemma StopInOrder(x: Stamped, t: Id)
    requires StampInv(x)
    ensures StampInv(StampedNext(x, Stop(t)))
  {
    NextKeepsRun(x.s, Stop(t));
    StopKeepsInv(x.s, t);
    assert RowAt(x.s.rows, |x.s.rows| - 1, x.s.due);
    DroppedInOrder(Queue(x.s), t, x.s.due, x.stamp, x.clock);
  }

  /** One round of the expiry loop. */
  lemma HeadMovesInOrder(q: seq<Id>, due: map<Id, int>, q': seq<Id>, due': map<Id, int>, d: int, again: bool, stamp: map<Id, int>, clock: int)
    requires HeadMoves(q, due, q', due', d, again) && InOrder(q, due, stamp, clock) && q[0] !in q[1..]
    ensures InOrder(q', due', if again then stamp[q[0] := clock] else stamp, clock + 1)
  {
    TailInOrder(q, d, due, stamp, clock);
  }

  lemma FiredInOrder(s: Timers, r: Timers, stamp: map<Id, int>, clock: int)
    requires Fired(s, r) && InOrder(Queue(s), s.due, stamp, clock)
    ensures InOrder(Queue(r), r.due, if Queue(s)[0] in s.periodic then stamp[Queue(s)[0] := clock] else stamp, clock + 1)
  {
    HeadMovesInOrder(Queue(s), s.due, Queue(r), r.due, s.now + s.init[Queue(s)[0]], Queue(s)[0] in s.periodic, stamp, clock);
  }

  lemma TailInOrder(q: seq<Id>, d: int, due: map<Id, int>, stamp: map<Id, int>, clock: int)
    requires q != [] && InOrder(q, due, stamp, clock) && q[0] !in q[1..]
    ensures InOrder(q[1..], due, stamp, clock + 1) && Covers(due, q[1..])
    ensures InOrder(Stable(q[1..], q[0], d, due), due[q[0] := d], stamp[q[0] := clock], clock + 1)
  {
    PrefixInOrder(q, 1, due, stamp, clock);
    StableInOrder(q[1..], q[0], d, due, stamp, clock);
  }

  /** One round of a check: r with the timers rest' that are not due comes out, and the numbers stamp'. */
  lemma RoundInOrder(s: Timers, l: seq<Id>, rest: seq<Id>, stamp: map<Id, int>, clock: int)
      returns (r: Timers, rest': seq<Id>, stamp': map<Id, int>)
    requires Split(s, l, rest) && InOrder(Queue(s), s.due, stamp, clock) && l != []
    ensures Split(r, l[1..], rest') && InOrder(Queue(r), r.due, stamp', clock + 1)
    ensures CheckStep(s) == CheckStep(r)
    ensures Restamped(l, s.periodic, stamp, clock) == Restamped(l[1..], r.periodic, stamp', clock + 1)
  {
    CheckUnfolds(s, l, rest);
    assert Queue(s)[0] == l[0];
    FireIs(s);
    SplitStep(s, l, rest);
    r, rest', stamp' := FireStep(s), Later(s, l[0], rest), if l[0] in s.periodic then stamp[l[0] := clock] else stamp;
    FiredInOrder(s, r, stamp, clock);
  }

  lemma {:induction false} CheckInOrder(s: Timers, l: seq<Id>, rest: seq<Id>, stamp: map<Id, int>, clock: int)
    requires Split(s, l, rest) && InOrder(Queue(s), s.due, stamp, clock)
    ensures CheckStep(s).rows != []
    ensures InOrder(Queue(CheckStep(s)), CheckStep(s).due, Restamped(l, s.periodic, stamp, clock), clock + |l|)
    decreases |l|
  {
    if l == [] {
      CheckUnfolds(s, l, rest);
    } else {
      var r, rest', stamp' := RoundInOrder(s, l, rest, stamp, clock);
      CheckInOrder(r, l[1..], rest', stamp', clock + 1);
    }
  }

  lemma SplitNext(s: Timers)
    requires RunInv(s)
    ensures Split(Advance(s), DueNext(s), Queue(s)[|DueNext(s)|..])
  {
    var q := Queue(s);
    AdvanceIsCheckable(s);
    QueueIsSorted(s);
    DuePart(q, s.due, s.init, s.now + 1, DueNext(s));
    AdvanceSplits(s, DueNext(s), q[|DueNext(s)|..]);
  }

  lemma DuePart(q: seq<Id>, due: map<Id, int>, init: map<Id, int>, now: int, l: seq<Id>)
    requires Sorted(q, due) && Covers(init, q) && l == q[..CountDue(q, due, now)]
    ensures |l| <= |q| && Parts(q, l, q[|l|..], due, init, now)
  {
    Parted(q, due, init, now);
  }

  lemma AdvanceSplits(s: Timers, l: seq<Id>, rest: seq<Id>)
    requires s.rows != [] && Inv(Advance(s)) && Checkable(Queue(s), s.due, s.init, s.periodic, s.now + 1)
    requires Parts(Queue(s), l, rest, s.due, s.init, s.now + 1)
    ensures Split(Advance(s), l, rest)
  {
  }

  lemma LogGrows(log: seq<Firing>, fired: seq<(Id, int)>, l: seq<Id>, now: int, due: map<Id, int>, stamp: map<Id, int>, clock: int)
    requires LogInOrder(log) && LogTells(log, fired, now) && InOrder(l, due, stamp, clock)
    ensures var log' := log + Logged(l, now + 1, due, stamp, clock);
      LogInOrder(log') && LogTells(log', fired + Fires(l, now + 1), now + 1)
  {
    var more := Logged(l, now + 1, due, stamp, clock);
    var log' := log + more;
    forall i, j | 0 <= i < j < |log'| ensures EarlierFiring(log'[i], log'[j]) {
      if i >= |log| { assert Before(l[i - |log|], l[j - |log|], due, stamp); }
    }
    FiresAt(l, now + 1);
  }

  lemma {:induction false} FiresAt(l: seq<Id>, now: int)
    ensures |Fires(l, now)| == |l| && forall i :: 0 <= i < |l| ==> Fires(l, now)[i] == (l[i], now)
    decreases |l|
  {
    if l != [] { FiresAt(l[1..], now); }
  }

  lemma TickInOrder(x: Stamped)
    requires StampInv(x)
    ensures StampInv(StampedNext(x, Tick))
  {
    var l := DueNext(x.s);
    NextKeepsRun(x.s, Tick);
    SplitNext(x.s);
    CheckKeepsInv(Advance(x.s));
    CheckInOrder(Advance(x.s), l, Queue(x.s)[|l|..], x.stamp, x.clock);
    PrefixInOrder(Queue(x.s), |l|, x.s.due, x.stamp, x.clock);
    DueNextFire(x.s);
    LogGrows(x.log, x.s.fired, l, x.s.now, x.s.due, x.stamp, x.clock);
  }

  lemma NextInOrder(x: Stamped, e: Event)
    requires StampInv(x) && Enabled(x.s, e)
    ensures StampInv(StampedNext(x, e)) && StampedNext(x, e).s == Next(x.s, e)
  {
    match e
    case Start(t) => StartInOrder(x, t);
    case Stop(t) => StopInOrder(x, t);
    case SetTime(t, n) => NextKeepsRun(x.s, e);
    case Tick => TickInOrder(x);
  }

  // ---- whole runs

  ghost function StampedAfter(x: Stamped, events: seq<Event>): Stamped
    requires StampInv(x) && Runs(x.s, events)
    decreases |events|
  {
    if events == [] then x else (NextInOrder(x, events[0]); StampedAfter(StampedNext(x, events[0]), events[1..]))
  }

  lemma {:induction false} EveryRunInOrder(x: Stamped, events: seq<Event>)
    requires StampInv(x) && Runs(x.s, events)
    ensures StampInv(StampedAfter(x, events)) && StampedAfter(x, events).s == After(x.s, events)
    decreases |events|
  {
    if events != [] {
      NextInOrder(x, events[0]);
      EveryRunInOrder(StampedNext(x, events[0]), events[1..]);
    }
  }

  /** From a list without timers: after every run the queue is ordered by deadline with ties in start order, and so
      was everything that fired, tick after tick. */
  lemma FiringOrder(s: Timers, events: seq<Event>) returns (x: Stamped)
    requires RunInv(s) && Queue(s) == [] && s.fired == [] && Runs(s, events)
    ensures StampInv(Stamped(s, map[], 0, [])) && x == StampedAfter(Stamped(s, map[], 0, []), events)
    ensures x.s == After(s, events) && StampInv(x)
    ensures InOrder(Queue(x.s), x.s.due, x.stamp, x.clock)
    ensures LogInOrder(x.log) && |x.log| == |x.s.fired|
    ensures forall i :: 0 <= i < |x.log| ==> x.s.fired[i] == (x.log[i].t, x.log[i].at)
  {
    var x0 := Stamped(s, map[], 0, []);
    EveryRunInOrder(x0, events);
    x := StampedAfter(x0, events);
  }
}
