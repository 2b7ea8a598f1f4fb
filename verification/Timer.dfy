/** The timer lists, changed in place as the timer service does. */
module Timer {
  import opened Ring
  import opened TimerOrder
  import opened TimerModel

  const TICKMAX := 0xffff_ffff

  ghost predicate RowReady(rows: seq<seq<Id>>, i: nat, d: int, due: map<Id, int>, timeout: map<Id, int>)
    requires i < |rows|
  {
    Covers(due, rows[i]) && Comparable(rows[i], d, due, timeout)
  }

  /** The deadlines in l can be compared with d on wrapped ticks. */
  ghost predicate Comparable(l: seq<Id>, d: int, due: map<Id, int>, timeout: map<Id, int>)
  {
    && (forall i :: 0 <= i < |l| ==> l[i] in due && l[i] in timeout && timeout[l[i]] == Wrap(due[l[i]]))
    && (forall i :: 0 <= i < |l| ==> due[l[i]] - d < HALF && d - due[l[i]] <= MODULUS - HALF)
  }

  ghost predicate HeadAt(rows: seq<seq<Id>>, heads: seq<nat>, i: nat, d: int, due: map<Id, int>)
    requires i < |rows| && i < |heads|
  {
    Covers(due, rows[i]) && heads[i] == Place(rows[i], d, due)
  }

  /** The place in a row is not in front of the timer behind which the search went on from the row above. */
  lemma DescendIsSound(l: seq<Id>, d: int, due: map<Id, int>, k: nat)
    requires Sorted(l, due) && k < |l| && due[l[k]] <= d
    ensures k + 1 <= Place(l, d, due)
  {
    if Place(l, d, due) <= k { assert false; }
  }

  class TimerList {
    var rows: seq<seq<Id>>
    var timeout: map<Id, int>       // timeout_tick of each timer
    var init: map<Id, int>          // init_tick of each timer
    var active: set<Id>             // timers with the activated flag
    var periodic: set<Id>           // timers with the periodic flag
    var tick: int
    var counter: int                // random_nr

    ghost var due: map<Id, int>
    ghost var now: int
    ghost var fired: seq<(Id, int)>

    ghost function State(): Timers
      reads this
    {
      Timers(rows, timeout, init, active, periodic, tick, counter, due, now, fired)
    }

    ghost predicate Valid()
      reads this
    {
      rows != [] && Inv(State())
    }

    /** rt_system_timer_init, for timers with the given delays, at tick 0. */
    constructor (levels: nat, init: map<Id, int>, periodic: set<Id>)
      requires levels > 0 && forall t :: t in init ==> 0 <= init[t] < HALF
      ensures Valid() && |rows| == levels && Queue(State()) == [] && tick == 0 && this.init == init && this.periodic == periodic
    {
      var empty: seq<seq<Id>> := [];
      var i := 0;
      while i < levels
        invariant i == |empty| <= levels && forall j :: 0 <= j < i ==> empty[j] == []
      {
        empty := empty + [[]];
        i := i + 1;
      }
      rows, this.init, this.periodic := empty, init, periodic;
      timeout, active, tick, counter := map[], {}, 0, 0;
      due, now, fired := map[], 0, [];
      new;
      forall j | 0 <= j < |rows| ensures RowAt(rows, j, due) { assert rows[j] == []; }
      forall j | 0 <= j < |rows| - 1 ensures NextOk(rows, j) { assert rows[j] == [] && Keep(rows[j + 1], {}) == [] by { KeepNothing(rows[j + 1]); } }
    }

    /** _rt_timer_remove. */
    method RemoveRows(t: Id)
      modifies `rows
      ensures rows == RemoveAll(old(rows), t)
    {
      var i := 0;
      while i < |rows|
        invariant 0 <= i <= |rows| == |old(rows)|
        invariant forall j :: 0 <= j < i ==> rows[j] == Dropped(old(rows)[j], t)
        invariant forall j :: i <= j < |rows| ==> rows[j] == old(rows)[j]
      {
        rows := rows[i := Dropped(rows[i], t)];
        i := i + 1;
      }
      forall j | 0 <= j < |rows| ensures rows[j] == RemoveAll(old(rows), t)[j] { RemoveAllAt(old(rows), t, j); }
    }

    /** The walk along one row: past every timer that does not expire after the new one. */
    method Walk(row: seq<Id>, start: nat, w: int, ghost d: int) returns (p: nat)
      requires Covers(due, row) && Comparable(row, d, due, timeout) && w == Wrap(d) && start <= Place(row, d, due)
      ensures p == Place(row, d, due) && p <= |row|
    {
      p := start;
      while p < |row| && !StopsAt(timeout[row[p]], w)
        invariant start <= p <= Place(row, d, due)
        decreases |row| - p
      {
        ComparesTrueDeadlines(due[row[p]], d);
        p := p + 1;
      }
      if p < |row| { ComparesTrueDeadlines(due[row[p]], d); }
    }

    /** The search of rt_timer_start: row by row, each time going on from where the row above stopped. */
    method Search(w: int, ghost d: int) returns (heads: seq<nat>)
      requires RowsInv(rows, due) && w == Wrap(d)
      requires forall i :: 0 <= i < |rows| ==> RowReady(rows, i, d, due, timeout)
      ensures |heads| == |rows|
      ensures forall i :: 0 <= i < |rows| ==> HeadAt(rows, heads, i, d, due)
    {
      heads := [];
      var start: nat := 0;
      if rows != [] { assert RowReady(rows, 0, d, due, timeout); }
      while |heads| < |rows|
        invariant |heads| <= |rows|
        invariant forall i :: 0 <= i < |heads| ==> HeadAt(rows, heads, i, d, due)
        invariant |heads| < |rows| ==> Covers(due, rows[|heads|]) && start <= Place(rows[|heads|], d, due)
        decreases |rows| - |heads|
      {
        var lvl := |heads|;
        assert RowReady(rows, lvl, d, due, timeout);
        ghost var before := heads;
        var p := Walk(rows[lvl], start, w, d);
        heads := heads + [p];
        forall i | 0 <= i < |heads| ensures HeadAt(rows, heads, i, d, due) {
          if i < lvl { assert HeadAt(rows, before, i, d, due); }
        }
        start := 0;
        if lvl + 1 < |rows| { assert RowReady(rows, lvl + 1, d, due, timeout); }
        if lvl + 1 < |rows| && p > 0 {
          start := Below(lvl, p, d);
        }
      }
    }

    /** The same timer's place in the next row, where the search goes on. */
    method Below(lvl: nat, p: nat, ghost d: int) returns (start: nat)
      requires RowsInv(rows, due) && lvl + 1 < |rows| && 0 < p <= |rows[lvl]|
      requires Covers(due, rows[lvl]) && Covers(due, rows[lvl + 1]) && due[rows[lvl][p - 1]] <= d
      ensures start <= Place(rows[lvl + 1], d, due)
    {
      var node, row := rows[lvl][p - 1], rows[lvl + 1];
      assert NextOk(rows, lvl) && RowAt(rows, lvl + 1, due);
      assert node in rows[lvl];
      var k := 0;
      while row[k] != node
        invariant 0 <= k < |row| && node in row[k..]
        decreases |row| - k
      {
        assert row[k..] == [row[k]] + row[k + 1..];
        k := k + 1;
      }
      DescendIsSound(row, d, due, k);
      start := k + 1;
    }

    /** The bottom row takes the timer, and the rows above it as long as two bits of the counter are zero. */
    method Insert(t: Id, heads: seq<nat>, ghost d: int)
      requires rows != [] && RowsCovered(rows, due) && |heads| == |rows| && counter >= 0
      requires forall i :: 0 <= i < |rows| ==> HeadAt(rows, heads, i, d, due)
      modifies `rows
      ensures RowsCovered(old(rows), due)
      ensures rows == InsertAll(old(rows), Extra(counter, |old(rows)| - 1), t, d, due)
    {
      ghost var rows0 := rows;
      ghost var h := Extra(counter, |rows| - 1);
      var last := |rows| - 1;
      assert HeadAt(rows, heads, last, d, due);
      PlaceInsert(rows[last], t, d, due);
      rows := rows[last := InsertedAt(rows[last], heads[last], t)];
      forall i | 0 <= i < |rows0| ensures Covers(due, rows0[i]) { assert CoveredAt(rows0, i, due); }
      var tst := counter;
      var lvl := 2;
      while lvl <= |rows| && tst % 4 == 0
        invariant 2 <= lvl <= |rows| + 1 && |rows| == |rows0| && tst >= 0
        invariant h == lvl - 2 + Extra(tst, |rows| + 1 - lvl)
        invariant forall i :: 0 <= i < |rows| ==> Covers(due, rows0[i]) && rows[i] == InsertRow(rows0[i], i + lvl - 1 >= |rows|, t, d, due)
        decreases |rows| - lvl
      {
        var i := |rows| - lvl;
        assert HeadAt(rows0, heads, i, d, due);
        PlaceInsert(rows0[i], t, d, due);
        rows := rows[i := InsertedAt(rows[i], heads[i], t)];
        tst := tst / 4;
        lvl := lvl + 1;
      }
      forall i | 0 <= i < |rows| ensures rows[i] == InsertAll(rows0, h, t, d, due)[i] {
        InsertAllAt(rows0, h, t, d, due, i);
      }
    }

    /** All deadlines but t's fit a window around d. */
    ghost predicate Fits(t: Id, d: int)
      reads this
      requires rows != []
    {
      forall u :: u in Queue(State()) && u != t ==> u in due && due[u] - d < HALF && d - due[u] <= MODULUS - HALF
    }

    lemma RowsComparable(rest: seq<seq<Id>>, t: Id, d: int)
      requires Valid() && Fits(t, d) && rest == RemoveAll(rows, t)
      ensures RowsInv(rest, due) && RowsCovered(rest, due)
      ensures forall i :: 0 <= i < |rest| ==> AbsentAt(rest, i, t)
      ensures forall i :: 0 <= i < |rest| ==> RowReady(rest, i, d, due, timeout)
    {
      RemoveKeepsRows(rows, t, due);
      StartReady(State(), t);
      RowsWithin(rest, due);
      forall i | 0 <= i < |rest| ensures RowReady(rest, i, d, due, timeout) {
        assert RowAt(rest, i, due) && AbsentAt(rest, i, t);
        forall j | 0 <= j < |rest[i]| ensures rest[i][j] in Queue(State()) && rest[i][j] != t {
          assert rest[i][j] in rest[i];
          assert RowAt(rows, |rows| - 1, due);
          DroppedMembers(Queue(State()), t);
        }
      }
    }

    /** rt_timer_start. */
    method Start(t: Id)
      requires Valid() && t in init && Fits(t, now + init[t])
      modifies this
      ensures Valid() && RowsCovered(RemoveAll(old(rows), t), old(due)) && State() == StartStep(old(State()), t)
    {
      StartKeepsInv(State(), t);
      ghost var s := State();
      RowsComparable(RemoveAll(rows, t), t, now + init[t]);
      WrapAdd(now, init[t]);
      Relaunch(t, now + init[t]);
      StartFieldsAre(s, State(), t);
    }

    method Relaunch(t: Id, ghost d: int)
      requires rows != [] && t in init && Wrap(tick + init[t]) == Wrap(d) && counter >= 0
      requires var rest := RemoveAll(rows, t);
        && RowsInv(rest, due) && RowsCovered(rest, due) && (forall i :: 0 <= i < |rest| ==> AbsentAt(rest, i, t))
        && (forall i :: 0 <= i < |rest| ==> RowReady(rest, i, d, due, timeout))
      modifies `rows, `timeout, `active, `counter, `due
      ensures counter == Counted(old(counter)) && due == old(due)[t := d]
      ensures RowsCovered(RemoveAll(old(rows), t), old(due))
      ensures rows == InsertAll(RemoveAll(old(rows), t), Extra(counter, |old(rows)| - 1), t, d, old(due))
      ensures timeout == old(timeout)[t := Wrap(tick + init[t])] && active == old(active) + {t}
    {
      RemoveRows(t);
      active := active - {t};
      timeout := timeout[t := Wrap(tick + init[t])];
      KeepsComparable(rows, t, d, due, old(timeout), timeout);
      Enter(t, timeout[t], d);
      due := due[t := d];
      active := active + {t};
      assert active == old(active) + {t};
    }

    /** Finds the places in all rows and inserts t. */
    method Enter(t: Id, w: int, ghost d: int)
      requires RowsInv(rows, due) && w == Wrap(d) && counter >= 0
      requires forall i :: 0 <= i < |rows| ==> RowReady(rows, i, d, due, timeout)
      modifies `rows, `counter
      ensures RowsCovered(old(rows), due) && counter == Counted(old(counter))
      ensures rows == InsertAll(old(rows), Extra(counter, |old(rows)| - 1), t, d, due)
    {
      CoveredRows(rows, due);
      var heads := Search(w, d);
      counter := if counter + 1 >= MODULUS then 0 else counter + 1;
      Insert(t, heads, d);
    }

    /** rt_timer_stop. */
    method Stop(t: Id) returns (ok: bool)
      requires Valid()
      modifies this
      ensures Valid() && State() == StopStep(old(State()), t)
      ensures ok <==> t in old(active)
    {
      StopKeepsInv(State(), t);
      if t !in active {
        return false;
      }
      RemoveRows(t);
      active := active - {t};
      ok := true;
    }

    /** rt_timer_list_next_timeout: the earliest deadline. */
    method NextTimeout() returns (r: int)
      requires Valid()
      ensures Queue(State()) == [] ==> r == TICKMAX
      ensures Queue(State()) != [] ==> exists t :: t in Queue(State()) && t in due && r == Wrap(due[t]) && Earliest(Queue(State()), t, due)
    {
      var q := rows[|rows| - 1];
      if q == [] {
        return TICKMAX;
      }
      assert RowAt(rows, |rows| - 1, due);
      var t := q[0];
      assert t in Queue(State());
      assert t in active;
      r := timeout[t];
      assert Earliest(q, t, due);
    }

    /** rt_timer_check, for callbacks that leave the timers alone. */
    method Check()
      requires Valid() && Checkable(Queue(State()), due, init, periodic, now)
      modifies this
      ensures Valid() && State() == CheckStep(old(State()))
    {
      ghost var s := State();
      HeadExpiredIsDue(State());
      while rows[|rows| - 1] != [] && Expired(tick, timeout[rows[|rows| - 1][0]])
        invariant Valid() && Checkable(Queue(State()), due, init, periodic, now)
        invariant Covers(due, Queue(State())) && (Queue(State()) != [] ==> Queue(State())[0] in timeout)
        invariant CheckStep(State()) == CheckStep(s)
        decreases CountDue(Queue(State()), due, now)
      {
        ghost var c := State();
        HeadExpiredIsDue(c);
        FireCounts(c);
        FireKeepsCheckable(c);
        Fire();
        HeadExpiredIsDue(State());
      }
    }

    /** One round of the expiry loop. */
    method Fire()
      requires Valid() && Queue(State()) != [] && Checkable(Queue(State()), due, init, periodic, now)
      modifies this
      ensures Valid() && State() == FireStep(old(State()))
    {
      TakeFirstKeepsInv(State());
      FireKeepsInv(State());
      var t := rows[|rows| - 1][0];
      ghost var was := active;
      RemoveRows(t);
      fired := fired + [(t, now)];
      active := active - {t};
      if t in periodic {
        FitsAfterFiring(old(State()), t);
        Start(t);
      }
    }
  }

  lemma StartFieldsAre(s: Timers, r: Timers, t: Id)
    requires s.rows != [] && t in s.init && RowsCovered(RemoveAll(s.rows, t), s.due) && s.counter >= 0
    requires r.counter == Counted(s.counter) && r.due == s.due[t := s.now + s.init[t]]
    requires r.rows == InsertAll(RemoveAll(s.rows, t), Extra(r.counter, |s.rows| - 1), t, s.now + s.init[t], s.due)
    requires r.timeout == s.timeout[t := Wrap(s.tick + s.init[t])] && r.active == s.active + {t}
    requires r.init == s.init && r.periodic == s.periodic && r.tick == s.tick && r.now == s.now && r.fired == s.fired
    ensures r == StartStep(s, t)
  {
  }

  ghost predicate Earliest(l: seq<Id>, t: Id, due: map<Id, int>)
  {
    t in due && forall u :: u in l ==> u in due && due[t] <= due[u]
  }

  lemma FitsAfterFiring(s: Timers, t: Id)
    requires s.rows != [] && Inv(s) && Queue(s) != [] && Checkable(Queue(s), s.due, s.init, s.periodic, s.now)
    requires t == Queue(s)[0] && t in s.periodic
    ensures t in s.init && Queue(TakeFirst(s)) == Queue(s)[1..]
    ensures forall u :: u in Queue(s)[1..] ==> u in s.due && s.due[u] - (s.now + s.init[t]) < HALF
    ensures forall u :: u in Queue(s)[1..] ==> u in s.due && s.now + s.init[t] - s.due[u] <= MODULUS - HALF
  {
    TakeFirstKeepsInv(s);
    assert t in Queue(s) && forall u :: u in Queue(s)[1..] ==> u in Queue(s);
  }

  lemma RowsWithin(rows: seq<seq<Id>>, due: map<Id, int>)
    requires RowsInv(rows, due)
    ensures forall i :: 0 <= i < |rows| ==> forall u :: u in rows[i] ==> u in rows[|rows| - 1]
  {
    forall i | 0 <= i < |rows| ensures forall u :: u in rows[i] ==> u in rows[|rows| - 1] {
      RowWithin(rows, due, i);
    }
  }

  lemma {:induction false} RowWithin(rows: seq<seq<Id>>, due: map<Id, int>, i: nat)
    requires RowsInv(rows, due) && i < |rows|
    ensures forall u :: u in rows[i] ==> u in rows[|rows| - 1]
    decreases |rows| - i
  {
    if i + 1 < |rows| {
      assert NextOk(rows, i);
      RowWithin(rows, due, i + 1);
    }
  }

  lemma KeepsComparable(rows: seq<seq<Id>>, t: Id, d: int, due: map<Id, int>, timeout: map<Id, int>, timeout': map<Id, int>)
    requires forall i :: 0 <= i < |rows| ==> AbsentAt(rows, i, t)
    requires forall u :: u in timeout && u != t ==> u in timeout' && timeout'[u] == timeout[u]
    requires forall i :: 0 <= i < |rows| ==> RowReady(rows, i, d, due, timeout)
    ensures forall i :: 0 <= i < |rows| ==> RowReady(rows, i, d, due, timeout')
  {
    forall i | 0 <= i < |rows| ensures RowReady(rows, i, d, due, timeout') {
      assert AbsentAt(rows, i, t) && RowReady(rows, i, d, due, timeout);
      forall j | 0 <= j < |rows[i]| ensures rows[i][j] != t { assert rows[i][j] in rows[i]; }
    }
  }

  lemma {:induction false} KeepNothing(l: seq<Id>)
    ensures Keep(l, {}) == []
    decreases |l|
  {
    if l != [] { KeepNothing(l[1..]); }
  }

  lemma PlaceInsert(l: seq<Id>, t: Id, d: int, due: map<Id, int>)
    requires Covers(due, l)
    ensures InsertedAt(l, Place(l, d, due), t) == Stable(l, t, d, due)
  {
    StableIsPlace(l, t, d, due);
  }
}
