/** The timer lists as a state machine. due and now are the true deadlines and time, of which the
    timers and the tick only hold the low 32 bits. */
module TimerModel {
  import opened Basics
  import opened Ring
  import opened TimerOrder

  /** rows[|rows| - 1] holds every running timer, the rows in front of it ever fewer. */
  datatype Timers = Timers(
    rows: seq<seq<Id>>, timeout: map<Id, int>, init: map<Id, int>, active: set<Id>, periodic: set<Id>,
    tick: int, counter: int, due: map<Id, int>, now: int, fired: seq<(Id, int)>)

  function Queue(s: Timers): seq<Id>
    requires s.rows != []
  {
    s.rows[|s.rows| - 1]
  }

  // ---- the steps

  function RemoveAll(rows: seq<seq<Id>>, t: Id): (r: seq<seq<Id>>)
    ensures |r| == |rows|
    decreases |rows|
  {
    if rows == [] then [] else [Dropped(rows[0], t)] + RemoveAll(rows[1..], t)
  }

  lemma {:induction false} RemoveAllAt(rows: seq<seq<Id>>, t: Id, i: nat)
    requires i < |rows|
    ensures RemoveAll(rows, t)[i] == Dropped(rows[i], t)
    decreases |rows|
  {
    if i > 0 { RemoveAllAt(rows[1..], t, i - 1); }
  }

  /** How many of the k sparser rows take the timer too: two bits of the counter decide about each. */
  function Extra(counter: nat, k: nat): (h: nat)
    ensures h <= k
    decreases k
  {
    if k == 0 || counter % 4 != 0 then 0 else 1 + Extra(counter / 4, k - 1)
  }

  ghost predicate RowsCovered(rows: seq<seq<Id>>, due: map<Id, int>)
  {
    forall i :: 0 <= i < |rows| ==> CoveredAt(rows, i, due)
  }

  ghost predicate CoveredAt(rows: seq<seq<Id>>, i: nat, due: map<Id, int>)
    requires i < |rows|
  {
    Covers(due, rows[i])
  }

  ghost function InsertRow(row: seq<Id>, takes: bool, t: Id, d: int, due: map<Id, int>): seq<Id>
    requires Covers(due, row)
  {
    if takes then Stable(row, t, d, due) else row
  }

  /** The bottom row and the h rows in front of it take the timer. */
  ghost function InsertAll(rows: seq<seq<Id>>, h: nat, t: Id, d: int, due: map<Id, int>): (r: seq<seq<Id>>)
    requires RowsCovered(rows, due)
    ensures |r| == |rows|
    decreases |rows|
  {
    if rows == [] then []
    else
      CoveredTail(rows, due);
      [InsertRow(rows[0], h + 1 >= |rows|, t, d, due)] + InsertAll(rows[1..], h, t, d, due)
  }

  lemma CoveredTail(rows: seq<seq<Id>>, due: map<Id, int>)
    requires RowsCovered(rows, due) && rows != []
    ensures Covers(due, rows[0]) && RowsCovered(rows[1..], due)
  {
    assert CoveredAt(rows, 0, due);
    forall i | 0 <= i < |rows[1..]| ensures CoveredAt(rows[1..], i, due) { assert CoveredAt(rows, i + 1, due); }
  }

  lemma {:induction false} InsertAllAt(rows: seq<seq<Id>>, h: nat, t: Id, d: int, due: map<Id, int>, i: nat)
    requires RowsCovered(rows, due) && i < |rows|
    ensures CoveredAt(rows, i, due)
    ensures InsertAll(rows, h, t, d, due)[i] == InsertRow(rows[i], i + h + 1 >= |rows|, t, d, due)
    decreases |rows|
  {
    CoveredTail(rows, due);
    if i > 0 { InsertAllAt(rows[1..], h, t, d, due, i - 1); }
  }

  function Counted(counter: int): int
  {
    if counter + 1 >= MODULUS then 0 else counter + 1
  }

  /** t enters h of the sparser rows with deadline d, of which it notes the low bits w. */
  ghost function Launch(s: Timers, t: Id, h: nat, w: int, d: int): Timers
    requires RowsCovered(s.rows, s.due)
  {
    s.(rows := InsertAll(s.rows, h, t, d, s.due),
       timeout := s.timeout[t := w], due := s.due[t := d], active := s.active + {t})
  }

  /** rt_timer_start, with h sparser rows for the timer. */
  ghost function StartAt(s: Timers, t: Id, h: nat): Timers
    requires s.rows != [] && t in s.init && RowsCovered(RemoveAll(s.rows, t), s.due)
  {
    Launch(Ready(s, t), t, h, Wrap(s.tick + s.init[t]), s.now + s.init[t])
  }

  /** rt_timer_start. */
  ghost function StartStep(s: Timers, t: Id): Timers
    requires s.rows != [] && t in s.init && RowsCovered(RemoveAll(s.rows, t), s.due) && s.counter >= 0
  {
    StartAt(s, t, Extra(Counted(s.counter), |s.rows| - 1))
  }

  /** What is left after the removal, with the counter moved on. */
  function Ready(s: Timers, t: Id): Timers
  {
    s.(rows := RemoveAll(s.rows, t), counter := Counted(s.counter))
  }

  function StopStep(s: Timers, t: Id): Timers
  {
    if t in s.active then s.(rows := RemoveAll(s.rows, t), active := s.active - {t}) else s
  }

  // ---- what every operation keeps

  /** Every row is sorted and each is a subsequence of the next. */
  ghost predicate RowsInv(rows: seq<seq<Id>>, due: map<Id, int>)
  {
    && rows != []
    && (forall i :: 0 <= i < |rows| ==> RowAt(rows, i, due))
    && (forall i :: 0 <= i < |rows| - 1 ==> NextOk(rows, i))
  }

  ghost predicate RowAt(rows: seq<seq<Id>>, i: nat, due: map<Id, int>)
    requires i < |rows|
  {
    RowOk(rows[i], due)
  }

  predicate AbsentAt(rows: seq<seq<Id>>, i: nat, t: Id)
    requires i < |rows|
  {
    t !in rows[i]
  }

  ghost predicate RowOk(row: seq<Id>, due: map<Id, int>)
  {
    Distinct(row) && Sorted(row, due)
  }

  ghost predicate NextOk(rows: seq<seq<Id>>, i: nat)
    requires i + 1 < |rows|
  {
    Subsequence(rows[i], rows[i + 1])
  }

  /** The running timers are exactly the queued ones, and they hold the low bits of their deadlines. */
  ghost predicate QueueInv(q: seq<Id>, timeout: map<Id, int>, due: map<Id, int>, init: map<Id, int>, active: set<Id>)
  {
    && (forall t :: t in q ==> t in active)
    && (forall t :: t in active ==> t in q && t in due && t in timeout && t in init)
    && (forall t :: t in active ==> timeout[t] == Wrap(due[t]))
  }

  ghost predicate TicksInv(s: Timers)
    requires s.rows != []
  {
    && s.tick == Wrap(s.now)
    && 0 <= s.counter < MODULUS
    && QueueInv(Queue(s), s.timeout, s.due, s.init, s.active)
    && (forall t :: t in s.init ==> 0 <= s.init[t] < HALF)
  }

  ghost predicate Inv(s: Timers)
    requires s.rows != []
  {
    RowsInv(s.rows, s.due) && TicksInv(s)
  }

  lemma DroppedSorted(l: seq<Id>, t: Id, due: map<Id, int>)
    requires Distinct(l) && Sorted(l, due)
    ensures Sorted(Dropped(l, t), due) && Distinct(Dropped(l, t))
  {
    DroppedIsKeep(l, t);
    KeepSorted(l, Elems(l) - {t}, due);
    DroppedMembers(l, t);
  }

  lemma RemoveKeepsRows(rows: seq<seq<Id>>, t: Id, due: map<Id, int>)
    requires RowsInv(rows, due)
    ensures RowsInv(RemoveAll(rows, t), due) && RowsCovered(RemoveAll(rows, t), due)
    ensures forall i :: 0 <= i < |rows| ==> AbsentAt(RemoveAll(rows, t), i, t)
  {
    var r := RemoveAll(rows, t);
    forall i | 0 <= i < |r| ensures RowAt(r, i, due) && CoveredAt(r, i, due) && AbsentAt(r, i, t) {
      assert RowAt(rows, i, due);
      RemoveAllAt(rows, t, i);
      DroppedSorted(rows[i], t, due);
      DroppedMembers(rows[i], t);
    }
    forall i | 0 <= i < |r| - 1 ensures NextOk(r, i) {
      assert NextOk(rows, i) && RowAt(rows, i + 1, due);
      RemoveAllAt(rows, t, i);
      RemoveAllAt(rows, t, i + 1);
      DroppedSubsequence(rows[i], rows[i + 1], t);
    }
  }

  lemma AbsentDropped(l: seq<Id>, t: Id)
    requires t !in l
    ensures Dropped(l, t) == l
    decreases |l|
  {
    if l != [] {
      assert l == [l[0]] + l[1..];
      AbsentDropped(l[1..], t);
    }
  }

  lemma {:induction false} StableSameDue(l: seq<Id>, t: Id, d: int, due: map<Id, int>, due': map<Id, int>)
    requires Covers(due, l) && Covers(due', l) && forall i :: 0 <= i < |l| ==> due[l[i]] == due'[l[i]]
    ensures Stable(l, t, d, due) == Stable(l, t, d, due')
    decreases |l|
  {
    if l != [] && due[l[0]] <= d {
      StableSameDue(l[1..], t, d, due, due');
    }
  }

  lemma AbsentUpdate(l: seq<Id>, t: Id, d: int, due: map<Id, int>)
    requires Sorted(l, due) && t !in l
    ensures Sorted(l, due[t := d]) && Stable(l, t, d, due) == Stable(l, t, d, due[t := d])
  {
    forall i | 0 <= i < |l| ensures l[i] in due[t := d] && due[t := d][l[i]] == due[l[i]] { assert l[i] in l; }
    StableSameDue(l, t, d, due, due[t := d]);
  }

  lemma InsertKeepsRowAt(rows: seq<seq<Id>>, h: nat, t: Id, d: int, due: map<Id, int>, i: nat)
    requires RowsInv(rows, due) && RowsCovered(rows, due) && i < |rows| && AbsentAt(rows, i, t)
    ensures RowAt(InsertAll(rows, h, t, d, due), i, due[t := d])
  {
    assert RowAt(rows, i, due);
    InsertAllAt(rows, h, t, d, due, i);
    InsertKeepsRow(rows[i], i + h + 1 >= |rows|, t, d, due);
  }

  lemma InsertKeepsNextAt(rows: seq<seq<Id>>, h: nat, t: Id, d: int, due: map<Id, int>, i: nat)
    requires RowsInv(rows, due) && RowsCovered(rows, due) && i + 1 < |rows| && AbsentAt(rows, i + 1, t)
    ensures NextOk(InsertAll(rows, h, t, d, due), i)
  {
    assert NextOk(rows, i) && RowAt(rows, i + 1, due);
    InsertAllAt(rows, h, t, d, due, i);
    InsertAllAt(rows, h, t, d, due, i + 1);
    InsertKeepsNext(rows[i], rows[i + 1], i + h + 1 >= |rows|, i + h + 2 >= |rows|, t, d, due);
  }

  /** Skip-list insertion is stable insertion: rows stay sorted and nested, and the bottom row is the
      stable insertion into the bottom row. */
  lemma InsertKeepsRows(rows: seq<seq<Id>>, h: nat, t: Id, d: int, due: map<Id, int>)
    requires RowsInv(rows, due) && RowsCovered(rows, due) && forall i :: 0 <= i < |rows| ==> AbsentAt(rows, i, t)
    ensures CoveredAt(rows, |rows| - 1, due)
    ensures RowsInv(InsertAll(rows, h, t, d, due), due[t := d])
    ensures InsertAll(rows, h, t, d, due)[|rows| - 1] == Stable(rows[|rows| - 1], t, d, due)
  {
    var r, due' := InsertAll(rows, h, t, d, due), due[t := d];
    forall i | 0 <= i < |r| ensures RowAt(r, i, due') { InsertKeepsRowAt(rows, h, t, d, due, i); }
    forall i | 0 <= i < |r| - 1 ensures NextOk(r, i) {
      assert AbsentAt(rows, i + 1, t);
      InsertKeepsNextAt(rows, h, t, d, due, i);
    }
    InsertAllAt(rows, h, t, d, due, |rows| - 1);
  }

  lemma InsertKeepsNext(a: seq<Id>, l: seq<Id>, takesA: bool, takesL: bool, t: Id, d: int, due: map<Id, int>)
    requires Sorted(l, due) && Covers(due, a) && t !in l && Subsequence(a, l) && (takesA ==> takesL)
    ensures Subsequence(InsertRow(a, takesA, t, d, due), InsertRow(l, takesL, t, d, due))
  {
    StableSubsequence(a, l, t, d, due);
  }

  lemma InsertKeepsRow(l: seq<Id>, takes: bool, t: Id, d: int, due: map<Id, int>)
    requires RowOk(l, due) && t !in l
    ensures RowOk(InsertRow(l, takes, t, d, due), due[t := d])
  {
    AbsentUpdate(l, t, d, due);
    if takes {
      StableDistinct(l, t, d, due);
      StableSorted(l, t, d, due[t := d]);
    }
  }

  lemma LaunchRows(s: Timers, t: Id, h: nat, w: int, d: int)
    requires RowsInv(s.rows, s.due) && RowsCovered(s.rows, s.due)
    requires forall i :: 0 <= i < |s.rows| ==> AbsentAt(s.rows, i, t)
    ensures RowsInv(Launch(s, t, h, w, d).rows, Launch(s, t, h, w, d).due) && Covers(s.due, Queue(s))
    ensures Queue(Launch(s, t, h, w, d)) == Stable(Queue(s), t, d, s.due)
  {
    InsertKeepsRows(s.rows, h, t, d, s.due);
  }

  lemma LaunchQueue(s: Timers, t: Id, h: nat, w: int, d: int)
    requires s.rows != [] && RowsCovered(s.rows, s.due) && t in s.init && w == Wrap(d) && Covers(s.due, Queue(s))
    requires QueueInv(Queue(s), s.timeout, s.due, s.init, s.active - {t})
    requires Launch(s, t, h, w, d).rows != [] && Queue(Launch(s, t, h, w, d)) == Stable(Queue(s), t, d, s.due)
    ensures var r := Launch(s, t, h, w, d); QueueInv(Queue(r), r.timeout, r.due, r.init, r.active)
  {
    LaunchKeepsQueue(Queue(s), s.timeout, s.due, s.init, s.active, t, w, d);
  }

  lemma LaunchKeepsInv(s: Timers, t: Id, h: nat, w: int, d: int)
    requires RowsInv(s.rows, s.due) && RowsCovered(s.rows, s.due) && t in s.init
    requires forall i :: 0 <= i < |s.rows| ==> AbsentAt(s.rows, i, t)
    requires QueueInv(Queue(s), s.timeout, s.due, s.init, s.active - {t}) && w == Wrap(d)
    ensures var r := Launch(s, t, h, w, d);
      && RowsInv(r.rows, r.due) && Covers(s.due, Queue(s)) && Queue(r) == Stable(Queue(s), t, d, s.due)
      && QueueInv(Queue(r), r.timeout, r.due, r.init, r.active)
  {
    CoveredRows(s.rows, s.due);
    LaunchRows(s, t, h, w, d);
    LaunchQueue(s, t, h, w, d);
  }

  lemma CoveredRows(rows: seq<seq<Id>>, due: map<Id, int>)
    requires RowsInv(rows, due)
    ensures RowsCovered(rows, due) && Covers(due, rows[|rows| - 1])
  {
    forall i | 0 <= i < |rows| ensures CoveredAt(rows, i, due) { assert RowAt(rows, i, due); }
    assert RowAt(rows, |rows| - 1, due);
  }

  lemma LaunchKeepsQueue(q: seq<Id>, timeout: map<Id, int>, due: map<Id, int>, init: map<Id, int>, active: set<Id>,
      t: Id, w: int, d: int)
    requires QueueInv(q, timeout, due, init, active - {t}) && Covers(due, q) && t in init && w == Wrap(d)
    ensures QueueInv(Stable(q, t, d, due), timeout[t := w], due[t := d], init, active + {t})
  {
  }

  lemma WrapAdd(now: int, n: int)
    ensures Wrap(Wrap(now) + n) == Wrap(now + n)
  {
    WrapDifference(now, -n);
    WrapDifference(Wrap(now), -n);
    assert Wrap(now) - (-n) == Wrap(now) + n;
  }

  lemma StartReady(s: Timers, t: Id)
    requires s.rows != [] && Inv(s)
    ensures var rows := RemoveAll(s.rows, t);
      && RowsInv(rows, s.due) && RowsCovered(rows, s.due) && (forall i :: 0 <= i < |rows| ==> AbsentAt(rows, i, t))
      && rows[|rows| - 1] == Dropped(Queue(s), t)
      && QueueInv(rows[|rows| - 1], s.timeout, s.due, s.init, s.active - {t})
      && Covers(s.due, Dropped(Queue(s), t))
  {
    RemoveKeepsRows(s.rows, t, s.due);
    assert RowAt(s.rows, |s.rows| - 1, s.due);
    RemoveAllAt(s.rows, t, |s.rows| - 1);
    DroppedMembers(Queue(s), t);
  }

  /** All is ready for t to enter the rows. */
  ghost predicate MayLaunch(c: Timers, t: Id)
  {
    && RowsInv(c.rows, c.due) && RowsCovered(c.rows, c.due) && t in c.init
    && (forall i :: 0 <= i < |c.rows| ==> AbsentAt(c.rows, i, t))
    && Covers(c.due, Queue(c))
    && QueueInv(Queue(c), c.timeout, c.due, c.init, c.active - {t})
    && c.tick == Wrap(c.now) && 0 <= c.counter < MODULUS && forall u :: u in c.init ==> 0 <= c.init[u] < HALF
  }

  lemma StartFrom(c: Timers, t: Id, h: nat, w: int, d: int)
    requires MayLaunch(c, t) && w == Wrap(d)
    ensures Inv(Launch(c, t, h, w, d)) && Queue(Launch(c, t, h, w, d)) == Stable(Queue(c), t, d, c.due)
  {
    LaunchKeepsInv(c, t, h, w, d);
  }

  lemma StartAtKeepsInv(s: Timers, t: Id, h: nat)
    requires s.rows != [] && Inv(s) && t in s.init
    ensures RowsCovered(RemoveAll(s.rows, t), s.due) && Covers(s.due, Dropped(Queue(s), t)) && Inv(StartAt(s, t, h))
    ensures Queue(StartAt(s, t, h)) == Stable(Dropped(Queue(s), t), t, s.now + s.init[t], s.due)
  {
    ReadyIs(s, t);
    WrapAdd(s.now, s.init[t]);
    StartFrom(Ready(s, t), t, h, Wrap(s.tick + s.init[t]), s.now + s.init[t]);
  }

  lemma ReadyIs(s: Timers, t: Id)
    requires s.rows != [] && Inv(s) && t in s.init
    ensures MayLaunch(Ready(s, t), t) && Queue(Ready(s, t)) == Dropped(Queue(s), t)
  {
    StartReady(s, t);
  }

  /** Starting a timer keeps every row sorted and nested; the running timers are the old ones without t,
      and t in its stable place. */
  lemma StartKeepsInv(s: Timers, t: Id)
    requires s.rows != [] && Inv(s) && t in s.init
    ensures RowsCovered(RemoveAll(s.rows, t), s.due) && Covers(s.due, Dropped(Queue(s), t)) && Inv(StartStep(s, t))
    ensures Queue(StartStep(s, t)) == Stable(Dropped(Queue(s), t), t, s.now + s.init[t], s.due)
  {
    StartAtKeepsInv(s, t, Extra(Counted(s.counter), |s.rows| - 1));
  }

  lemma StopKeepsInv(s: Timers, t: Id)
    requires s.rows != [] && Inv(s)
    ensures Inv(StopStep(s, t))
    ensures Queue(StopStep(s, t)) == Dropped(Queue(s), t)
  {
    if t in s.active {
      StartReady(s, t);
    } else {
      AbsentDropped(Queue(s), t);
    }
  }

  // ---- the expiry loop

  /** The first timer is taken out and fires. */
  function TakeFirst(s: Timers): Timers
    requires s.rows != [] && Queue(s) != []
  {
    var t := Queue(s)[0];
    s.(rows := RemoveAll(s.rows, t), active := s.active - {t}, fired := s.fired + [(t, s.now)])
  }

  lemma TakeFirstKeepsInv(s: Timers)
    requires s.rows != [] && Inv(s) && Queue(s) != []
    ensures Inv(TakeFirst(s)) && Queue(TakeFirst(s)) == Queue(s)[1..] && Queue(s)[0] in s.init && Covers(s.due, Queue(s))
    ensures Queue(s)[0] !in Queue(s)[1..] && Sorted(Queue(s), s.due)
  {
    var t := Queue(s)[0];
    assert t in Queue(s);
    StartReady(s, t);
    assert RowAt(s.rows, |s.rows| - 1, s.due);
    PopDistinct(Queue(s));
  }

  /** One round of rt_timer_check: the first timer fires, and restarts if it is periodic. */
  ghost function FireStep(s: Timers): Timers
    requires s.rows != [] && Inv(s) && Queue(s) != []
  {
    TakeFirstKeepsInv(s);
    var t, c := Queue(s)[0], TakeFirst(s);
    if t in s.periodic then StartKeepsInv(c, t); StartStep(c, t) else c
  }

  /** Periodic timers have a period, and the deadlines fit a window around now in which the tests on
      wrapped ticks compare the true deadlines, also those of the timers that restart. */
  ghost predicate Checkable(q: seq<Id>, due: map<Id, int>, init: map<Id, int>, periodic: set<Id>, now: int)
  {
    && (forall t :: t in q ==> t in due && t in init && Near(due[t], now))
    && (forall t :: t in q && t in periodic ==> init[t] >= 1)
    && (forall t, u :: t in q && u in q && t in periodic ==> now + init[t] - due[u] <= MODULUS - HALF)
  }

  predicate Near(x: int, now: int)
  {
    now - HALF < x < now + HALF
  }

  ghost function CountDue(q: seq<Id>, due: map<Id, int>, now: int): (n: nat)
    requires Covers(due, q)
    ensures n <= |q|
    decreases |q|
  {
    if q == [] || due[q[0]] > now then 0 else 1 + CountDue(q[1..], due, now)
  }

  /** In a sorted queue the due timers are the first ones. */
  lemma {:induction false} DueAreFirst(q: seq<Id>, due: map<Id, int>, now: int, i: nat)
    requires Sorted(q, due) && i < |q|
    ensures due[q[i]] <= now <==> i < CountDue(q, due, now)
    decreases |q|
  {
    SortedTail(q, due);
    if due[q[0]] <= now && i > 0 {
      assert q[1..][i - 1] == q[i];
      DueAreFirst(q[1..], due, now, i - 1);
    }
  }

  lemma {:induction false} CountStable(q: seq<Id>, t: Id, d: int, due: map<Id, int>, now: int)
    requires Sorted(q, due) && t !in q && d > now
    ensures Covers(due[t := d], Stable(q, t, d, due))
    ensures CountDue(Stable(q, t, d, due), due[t := d], now) == CountDue(q, due, now)
    decreases |q|
  {
    StableCovered(q, t, d, due);
    if q == [] || due[q[0]] > d {
    } else {
      assert q[0] in q && t !in q[1..];
      SortedTail(q, due);
      var r := Stable(q[1..], t, d, due);
      assert ([q[0]] + r)[1..] == r;
      CountStable(q[1..], t, d, due, now);
      if due[q[0]] > now {
        assert due[t := d][q[0]] == due[q[0]];
      }
    }
  }

  lemma StableCovered(q: seq<Id>, t: Id, d: int, due: map<Id, int>)
    requires Covers(due, q)
    ensures Covers(due[t := d], Stable(q, t, d, due))
  {
    StableIsPlace(q, t, d, due);
  }

  lemma StartFields(s: Timers, t: Id)
    requires s.rows != [] && Inv(s) && t in s.init
    ensures RowsCovered(RemoveAll(s.rows, t), s.due)
    ensures var r := StartStep(s, t);
      && r.due == s.due[t := s.now + s.init[t]] && r.now == s.now && r.init == s.init && r.periodic == s.periodic
      && r.fired == s.fired && |r.rows| == |s.rows|
  {
    StartKeepsInv(s, t);
  }

  lemma FireKeepsInv(s: Timers)
    requires s.rows != [] && Inv(s) && Queue(s) != []
    ensures Inv(FireStep(s)) && FireStep(s).now == s.now && FireStep(s).init == s.init && FireStep(s).periodic == s.periodic
    ensures |FireStep(s).rows| == |s.rows|
    ensures FireStep(s).fired == s.fired + [(Queue(s)[0], s.now)]
  {
    TakeFirstKeepsInv(s);
    if Queue(s)[0] in s.periodic {
      StartKeepsInv(TakeFirst(s), Queue(s)[0]);
      StartFields(TakeFirst(s), Queue(s)[0]);
    }
  }

  lemma RestartQueue(c: Timers, t: Id)
    requires c.rows != [] && Inv(c) && t in c.init && t !in Queue(c)
    ensures RowsCovered(RemoveAll(c.rows, t), c.due) && Covers(c.due, Queue(c)) && Inv(StartStep(c, t))
    ensures Queue(StartStep(c, t)) == Stable(Queue(c), t, c.now + c.init[t], c.due)
  {
    StartKeepsInv(c, t);
    AbsentDropped(Queue(c), t);
  }

  /** Firing takes the first timer off the queue; a periodic one goes back in at now plus its period. */
  lemma FireQueue(s: Timers)
    requires s.rows != [] && Inv(s) && Queue(s) != []
    ensures Covers(s.due, Queue(s)) && Queue(s)[0] in s.init && Inv(FireStep(s))
    ensures var t := Queue(s)[0];
      if t in s.periodic then
        Queue(FireStep(s)) == Stable(Queue(s)[1..], t, s.now + s.init[t], s.due)
        && FireStep(s).due == s.due[t := s.now + s.init[t]]
      else Queue(FireStep(s)) == Queue(s)[1..] && FireStep(s).due == s.due
  {
    TakeFirstKeepsInv(s);
    var t, c := Queue(s)[0], TakeFirst(s);
    if t in s.periodic {
      StartFields(c, t);
      RestartQueue(c, t);
    }
  }

  /** What one round leaves: r is s without its first timer, which fired and went back in if it is periodic. */
  ghost predicate Fired(s: Timers, r: Timers)
  {
    && s.rows != [] && Inv(s) && Queue(s) != [] && r.rows != [] && Inv(r) && |r.rows| == |s.rows|
    && Sorted(Queue(s), s.due) && Queue(s)[0] in s.init && Queue(s)[0] !in Queue(s)[1..]
    && r.now == s.now && r.init == s.init && r.periodic == s.periodic && r.fired == s.fired + [(Queue(s)[0], s.now)]
    && HeadMoves(Queue(s), s.due, Queue(r), r.due, s.now + s.init[Queue(s)[0]], Queue(s)[0] in s.periodic)
  }

  /** The first timer of q leaves it, and goes back in with deadline d if it starts again. */
  ghost predicate HeadMoves(q: seq<Id>, due: map<Id, int>, q': seq<Id>, due': map<Id, int>, d: int, again: bool)
  {
    q != [] && Covers(due, q) &&
    if again then q' == Stable(q[1..], q[0], d, due) && due' == due[q[0] := d] else q' == q[1..] && due' == due
  }

  lemma FireIs(s: Timers)
    requires s.rows != [] && Inv(s) && Queue(s) != []
    ensures Fired(s, FireStep(s))
  {
    TakeFirstKeepsInv(s);
    FireKeepsInv(s);
    FireQueue(s);
  }

  lemma FiredCheckable(s: Timers, r: Timers)
    requires Fired(s, r) && Checkable(Queue(s), s.due, s.init, s.periodic, s.now)
    ensures Checkable(Queue(r), r.due, r.init, r.periodic, r.now)
  {
    var t := Queue(s)[0];
    assert t in Queue(s) && forall u :: u in Queue(s)[1..] ==> u in Queue(s);
  }

  lemma FireKeepsCheckable(s: Timers)
    requires s.rows != [] && Inv(s) && Queue(s) != [] && Checkable(Queue(s), s.due, s.init, s.periodic, s.now)
    ensures Inv(FireStep(s))
    ensures var r := FireStep(s); Checkable(Queue(r), r.due, r.init, r.periodic, r.now)
  {
    FireIs(s);
    FiredCheckable(s, FireStep(s));
  }

  lemma FiredCounts(s: Timers, r: Timers)
    requires Fired(s, r) && Checkable(Queue(s), s.due, s.init, s.periodic, s.now)
    requires s.due[Queue(s)[0]] <= s.now
    ensures Covers(r.due, Queue(r)) && CountDue(Queue(r), r.due, s.now) == CountDue(Queue(s), s.due, s.now) - 1
  {
    var t := Queue(s)[0];
    SortedTail(Queue(s), s.due);
    if t in s.periodic {
      assert t in Queue(s);
      CountStable(Queue(s)[1..], t, s.now + s.init[t], s.due, s.now);
    }
  }

  lemma FireCounts(s: Timers)
    requires s.rows != [] && Inv(s) && Queue(s) != [] && Checkable(Queue(s), s.due, s.init, s.periodic, s.now)
    requires Covers(s.due, Queue(s)) && s.due[Queue(s)[0]] <= s.now
    ensures Inv(FireStep(s)) && Covers(FireStep(s).due, Queue(FireStep(s)))
    ensures CountDue(Queue(FireStep(s)), FireStep(s).due, s.now) == CountDue(Queue(s), s.due, s.now) - 1
  {
    FireIs(s);
    FiredCounts(s, FireStep(s));
  }

  ghost predicate HeadExpired(s: Timers)
    requires s.rows != []
  {
    Queue(s) != [] && Queue(s)[0] in s.timeout && Expired(s.tick, s.timeout[Queue(s)[0]])
  }

  lemma HeadExpiredIsDue(s: Timers)
    requires s.rows != [] && Inv(s) && Checkable(Queue(s), s.due, s.init, s.periodic, s.now)
    ensures Covers(s.due, Queue(s)) && (Queue(s) != [] ==> Queue(s)[0] in s.timeout)
    ensures HeadExpired(s) <==> Queue(s) != [] && s.due[Queue(s)[0]] <= s.now
  {
    assert RowAt(s.rows, |s.rows| - 1, s.due);
    if Queue(s) != [] {
      var t := Queue(s)[0];
      assert t in Queue(s);
      ExpiresWhenDue(s.now, s.due[t]);
    }
  }

  /** rt_timer_check: rounds until the first timer is not due. It ends because each round leaves one due
      timer less. */
  ghost function CheckStep(s: Timers): Timers
    requires s.rows != [] && Inv(s) && Checkable(Queue(s), s.due, s.init, s.periodic, s.now)
    decreases (HeadExpiredIsDue(s); CountDue(Queue(s), s.due, s.now))
  {
    HeadExpiredIsDue(s);
    if !HeadExpired(s) then s
    else
      FireKeepsCheckable(s);
      FireCounts(s);
      FireKeepsInv(s);
      CheckStep(FireStep(s))
  }

  lemma {:induction false} CheckKeepsInv(s: Timers)
    requires s.rows != [] && Inv(s) && Checkable(Queue(s), s.due, s.init, s.periodic, s.now)
    ensures CheckStep(s).rows != [] && Inv(CheckStep(s)) && !HeadExpired(CheckStep(s))
    ensures var r := CheckStep(s);
      && Checkable(Queue(r), r.due, r.init, r.periodic, r.now) && r.now == s.now && r.init == s.init && r.periodic == s.periodic
    decreases (HeadExpiredIsDue(s); CountDue(Queue(s), s.due, s.now))
  {
    HeadExpiredIsDue(s);
    if HeadExpired(s) {
      FireKeepsCheckable(s);
      FireCounts(s);
      FireKeepsInv(s);
      CheckKeepsInv(FireStep(s));
    }
  }

  /** After a check no due timer is queued. */
  lemma NothingDueIsLeft(s: Timers)
    requires s.rows != [] && Inv(s) && Checkable(Queue(s), s.due, s.init, s.periodic, s.now)
    ensures var r := CheckStep(s); r.rows != [] && forall t :: t in Queue(r) ==> t in r.due && r.due[t] > s.now
  {
    CheckKeepsInv(s);
    var r := CheckStep(s);
    HeadExpiredIsDue(r);
    assert RowAt(r.rows, |r.rows| - 1, r.due);
    forall t | t in Queue(r) ensures t in r.due && r.due[t] > s.now {
      var i :| 0 <= i < |Queue(r)| && Queue(r)[i] == t;
      DueAreFirst(Queue(r), r.due, s.now, i);
    }
  }

  ghost function Fires(l: seq<Id>, now: int): seq<(Id, int)>
    decreases |l|
  {
    if l == [] then [] else [(l[0], now)] + Fires(l[1..], now)
  }

  /** The timers of l restart one after the other, if they are periodic, among the timers in rest. */
  ghost function Requeued(l: seq<Id>, rest: seq<Id>, due: map<Id, int>, init: map<Id, int>, periodic: set<Id>, now: int): seq<Id>
    requires Covers(due, rest) && Covers(init, l)
    decreases |l|
  {
    if l == [] then rest
    else if l[0] in periodic then
      StableCovered(rest, l[0], now + init[l[0]], due);
      Requeued(l[1..], Stable(rest, l[0], now + init[l[0]], due), due[l[0] := now + init[l[0]]], init, periodic, now)
    else Requeued(l[1..], rest, due, init, periodic, now)
  }

  lemma {:induction false} StableBehind(l: seq<Id>, rest: seq<Id>, t: Id, d: int, due: map<Id, int>)
    requires Covers(due, l) && Covers(due, rest) && forall i :: 0 <= i < |l| ==> due[l[i]] <= d
    ensures Covers(due, l + rest) && Stable(l + rest, t, d, due) == l + Stable(rest, t, d, due)
    decreases |l|
  {
    if l == [] {
      assert l + rest == rest;
    } else {
      assert (l + rest)[1..] == l[1..] + rest;
      StableBehind(l[1..], rest, t, d, due);
    }
  }

  /** The state between two rounds: the timers of l are still to fire, those of rest are not due. */
  ghost predicate Split(s: Timers, l: seq<Id>, rest: seq<Id>)
  {
    && s.rows != [] && Inv(s) && Checkable(Queue(s), s.due, s.init, s.periodic, s.now)
    && Parts(Queue(s), l, rest, s.due, s.init, s.now)
  }

  /** q is made of due timers l and of others. */
  ghost predicate Parts(q: seq<Id>, l: seq<Id>, rest: seq<Id>, due: map<Id, int>, init: map<Id, int>, now: int)
  {
    && q == l + rest
    && (forall i :: 0 <= i < |l| ==> l[i] in due && l[i] in init && due[l[i]] <= now)
    && (forall i :: 0 <= i < |rest| ==> rest[i] in due && due[rest[i]] > now)
  }

  /** A sorted queue is parted by the number of its due timers. */
  lemma Parted(q: seq<Id>, due: map<Id, int>, init: map<Id, int>, now: int)
    requires Sorted(q, due) && Covers(init, q)
    ensures var n := CountDue(q, due, now);
      && Parts(q, q[..n], q[n..], due, init, now) && Covers(due, q[n..]) && Covers(init, q[..n])
      && forall i :: 0 <= i < |q| ==> (due[q[i]] <= now <==> i < n)
  {
    forall i | 0 <= i < |q| ensures due[q[i]] <= now <==> i < CountDue(q, due, now) { DueAreFirst(q, due, now, i); }
    PartedAt(q, CountDue(q, due, now), due, init, now);
  }

  lemma PartedAt(q: seq<Id>, n: nat, due: map<Id, int>, init: map<Id, int>, now: int)
    requires n <= |q| && Covers(due, q) && Covers(init, q) && forall i :: 0 <= i < |q| ==> (due[q[i]] <= now <==> i < n)
    ensures Parts(q, q[..n], q[n..], due, init, now) && Covers(due, q[n..]) && Covers(init, q[..n])
  {
    var l, rest := q[..n], q[n..];
    forall i | 0 <= i < |rest| ensures rest[i] in due && due[rest[i]] > now { assert rest[i] == q[n + i]; }
  }

  lemma QueueIsSorted(s: Timers)
    requires s.rows != [] && Inv(s)
    ensures Sorted(Queue(s), s.due) && Distinct(Queue(s)) && Covers(s.init, Queue(s))
  {
    var q := Queue(s);
    assert RowAt(s.rows, |s.rows| - 1, s.due);
    forall i | 0 <= i < |q| ensures q[i] in s.init {
      var t: Id := q[i];
      assert t in q && t in s.active;
    }
  }

  /** The timers behind the first round's one, and what stays or becomes not due. */
  ghost function Later(s: Timers, t: Id, rest: seq<Id>): seq<Id>
    requires Covers(s.due, rest) && t in s.init
  {
    if t in s.periodic then Stable(rest, t, s.now + s.init[t], s.due) else rest
  }

  lemma EarlyStay(l: seq<Id>, t: Id, d: int, due: map<Id, int>, init: map<Id, int>, now: int)
    requires forall i :: 0 <= i < |l| ==> l[i] in due && l[i] in init && due[l[i]] <= now
    requires t !in l
    ensures forall i :: 0 <= i < |l| ==> l[i] in due[t := d] && l[i] in init && due[t := d][l[i]] <= now
  {
    forall i | 0 <= i < |l| ensures l[i] != t { assert l[i] in l; }
  }

  lemma LateStay(rest: seq<Id>, t: Id, d: int, due: map<Id, int>, now: int)
    requires forall i :: 0 <= i < |rest| ==> rest[i] in due && due[rest[i]] > now
    requires t !in rest && d > now
    ensures var r := Stable(rest, t, d, due); forall i :: 0 <= i < |r| ==> r[i] in due[t := d] && due[t := d][r[i]] > now
  {
    var r := Stable(rest, t, d, due);
    forall i | 0 <= i < |r| ensures r[i] in due[t := d] && due[t := d][r[i]] > now {
      assert r[i] in r;
      if r[i] != t { var j :| 0 <= j < |rest| && rest[j] == r[i]; }
    }
  }

  lemma SplitStep(s: Timers, l: seq<Id>, rest: seq<Id>)
    requires Split(s, l, rest) && l != []
    ensures Covers(s.due, rest) && l[0] in s.init && Split(FireStep(s), l[1..], Later(s, l[0], rest))
  {
    FireIs(s);
    FiredSplit(s, FireStep(s), l, rest);
  }

  lemma FiredSplit(s: Timers, r: Timers, l: seq<Id>, rest: seq<Id>)
    requires Split(s, l, rest) && l != [] && Fired(s, r)
    ensures Covers(s.due, rest) && l[0] in s.init && Split(r, l[1..], Later(s, l[0], rest))
  {
    var t := l[0];
    assert Queue(s)[0] == t && Queue(s)[1..] == l[1..] + rest;
    SplitApart(l[1..], rest, Queue(s)[1..], t);
    FiredCheckable(s, r);
    if t in s.periodic {
      assert t in Queue(s);
      RestartSplits(l[1..], rest, t, s.now + s.init[t], s.due, s.init, s.now);
    }
  }

  /** A timer that restarts goes behind those that are still to fire, and among those that are not due. */
  lemma RestartSplits(l: seq<Id>, rest: seq<Id>, t: Id, d: int, due: map<Id, int>, init: map<Id, int>, now: int)
    requires forall i :: 0 <= i < |l| ==> l[i] in due && l[i] in init && due[l[i]] <= now
    requires forall i :: 0 <= i < |rest| ==> rest[i] in due && due[rest[i]] > now
    requires t !in l && t !in rest && d > now
    ensures Covers(due, l + rest) && Stable(l + rest, t, d, due) == l + Stable(rest, t, d, due)
    ensures forall i :: 0 <= i < |l| ==> l[i] in due[t := d] && l[i] in init && due[t := d][l[i]] <= now
    ensures var q := Stable(rest, t, d, due); forall i :: 0 <= i < |q| ==> q[i] in due[t := d] && due[t := d][q[i]] > now
  {
    StableBehind(l, rest, t, d, due);
    EarlyStay(l, t, d, due, init, now);
    LateStay(rest, t, d, due, now);
  }

  lemma SplitApart(l: seq<Id>, rest: seq<Id>, q: seq<Id>, t: Id)
    requires q == l + rest && t !in q
    ensures t !in l && t !in rest
  {
    forall i | 0 <= i < |l| ensures l[i] != t { assert q[i] == l[i]; }
    forall i | 0 <= i < |rest| ensures rest[i] != t { assert q[|l| + i] == rest[i]; }
  }

  /** A check fires exactly the due timers, in the order of the queue (by deadline, ties in start order),
      and puts the periodic ones among them back at now plus their periods. */
  lemma {:induction false} CheckFiresDue(s: Timers, l: seq<Id>, rest: seq<Id>)
    requires Split(s, l, rest)
    ensures CheckStep(s).fired == s.fired + Fires(l, s.now)
    ensures CheckStep(s).rows != [] && Covers(s.due, rest) && Covers(s.init, l)
    ensures Queue(CheckStep(s)) == Requeued(l, rest, s.due, s.init, s.periodic, s.now)
    decreases |l|
  {
    CheckUnfolds(s, l, rest);
    if l != [] {
      SplitStep(s, l, rest);
      CheckFiresDue(FireStep(s), l[1..], Later(s, l[0], rest));
      FireIs(s);
      RequeuedUnfolds(s, FireStep(s), l, rest);
      FiresCons(s.fired, l, s.now);
    }
  }

  lemma FiresCons(fired: seq<(Id, int)>, l: seq<Id>, now: int)
    requires l != []
    ensures (fired + [(l[0], now)]) + Fires(l[1..], now) == fired + Fires(l, now)
  {
  }

  lemma CheckUnfolds(s: Timers, l: seq<Id>, rest: seq<Id>)
    requires Split(s, l, rest)
    ensures l == [] ==> CheckStep(s) == s && Queue(s) == rest
    ensures l != [] ==>
      && Inv(FireStep(s)) && FireStep(s).rows != []
      && Checkable(Queue(FireStep(s)), FireStep(s).due, FireStep(s).init, FireStep(s).periodic, FireStep(s).now)
      && CheckStep(s) == CheckStep(FireStep(s))
      && FireStep(s).fired == s.fired + [(l[0], s.now)]
  {
    HeadExpiredIsDue(s);
    if l == [] {
      assert Queue(s) == rest;
    } else {
      assert Queue(s)[0] == l[0];
      FireKeepsInv(s);
      FireKeepsCheckable(s);
      FireCounts(s);
    }
  }

  lemma RequeuedUnfolds(s: Timers, r: Timers, l: seq<Id>, rest: seq<Id>)
    requires Fired(s, r) && l != [] && Queue(s)[0] == l[0] && Covers(s.due, rest) && Covers(s.init, l)
    requires Covers(r.due, Later(s, l[0], rest)) && Covers(r.init, l[1..])
    ensures Requeued(l, rest, s.due, s.init, s.periodic, s.now)
      == Requeued(l[1..], Later(s, l[0], rest), r.due, r.init, r.periodic, r.now)
  {
    RequeuedFirst(l, rest, s.due, s.init, s.periodic, s.now);
  }

  lemma RequeuedFirst(l: seq<Id>, rest: seq<Id>, due: map<Id, int>, init: map<Id, int>, periodic: set<Id>, now: int)
    requires l != [] && Covers(due, rest) && Covers(init, l)
    ensures var t, d := l[0], now + init[l[0]];
      Requeued(l, rest, due, init, periodic, now) ==
        if t in periodic then (StableCovered(rest, t, d, due); Requeued(l[1..], Stable(rest, t, d, due), due[t := d], init, periodic, now))
        else Requeued(l[1..], rest, due, init, periodic, now)
  {
  }

  /** What one check does, from any state whose deadlines fit the window. */
  lemma CheckIsExact(s: Timers)
    requires s.rows != [] && Inv(s) && Checkable(Queue(s), s.due, s.init, s.periodic, s.now)
    ensures Covers(s.due, Queue(s)) && CheckStep(s).rows != []
    ensures var n := CountDue(Queue(s), s.due, s.now);
      && (forall i :: 0 <= i < |Queue(s)| ==> (s.due[Queue(s)[i]] <= s.now <==> i < n))
      && Covers(s.due, Queue(s)[n..]) && Covers(s.init, Queue(s)[..n])
      && CheckStep(s).fired == s.fired + Fires(Queue(s)[..n], s.now)
      && Queue(CheckStep(s)) == Requeued(Queue(s)[..n], Queue(s)[n..], s.due, s.init, s.periodic, s.now)
  {
    var q := Queue(s);
    QueueIsSorted(s);
    Parted(q, s.due, s.init, s.now);
    var n := CountDue(q, s.due, s.now);
    CheckFiresDue(s, q[..n], q[n..]);
  }
}
