/** The event object, changed in place; the flags are 32-bit words here. */
module Event {
  import opened Basics
  import opened Ring
  import opened WaitList
  import opened EventBits
  import M = EventModel

  ghost function Words(m: map<Tid, bv32>): map<Tid, M.Flags>
  {
    map t | t in m :: Bits(m[t])
  }

  lemma WordsUpdate(m: map<Tid, bv32>, t: Tid, w: bv32)
    ensures Words(m[t := w]) == Words(m)[t := Bits(w)]
  {
  }

  datatype Outcome = Pending | Failed(error: int) | Done | Received(flags: bv32)

  ghost function Meaning(o: Outcome): M.Outcome
  {
    match o
    case Pending => M.Pending
    case Failed(e) => M.Failed(e)
    case Done => M.Done
    case Received(w) => M.Received(Bits(w))
  }

  method Or(a: bv32, b: bv32) returns (x: bv32)
    ensures Bits(x) == Bits(a) + Bits(b)
  {
    x := a | b;
    OrBits(a, b, x);
  }

  method And(a: bv32, b: bv32) returns (x: bv32)
    ensures Bits(x) == Bits(a) * Bits(b)
  {
    x := a & b;
    AndBits(a, b, x);
  }

  method AndNot(a: bv32, b: bv32) returns (x: bv32)
    ensures Bits(x) == Bits(a) - Bits(b)
  {
    x := a & !b;
    MinusBits(a, b, x);
  }

  method IsZero(a: bv32) returns (z: bool)
    ensures z <==> Bits(a) == {}
  {
    ZeroBits(a);
    z := a == 0;
  }

  method Same(a: bv32, b: bv32) returns (z: bool)
    ensures z <==> Bits(a) == Bits(b)
  {
    SameBits(a, b);
    z := a == b;
  }

  /** The waiting condition on words, what is recorded and what flags are left. */
  method Judge(want: bv32, o: M.Option, flags: bv32) returns (ok: bool, recorded: bv32, left: bv32)
    ensures ok == M.Satisfied(Bits(want), o, Bits(flags))
    ensures ok ==> Bits(recorded) == M.Recorded(Bits(want), o, Bits(flags)) && Bits(left) == M.Left(Bits(want), o, Bits(flags))
    ensures !ok ==> recorded == want && left == flags
  {
    ok, recorded, left := false, want, flags;
    var both := And(want, flags);
    if o.all {
      ok := Same(both, want);
    } else if o.any {
      var none := IsZero(both);
      ok := !none;
      if ok {
        recorded := both;
      }
    }
    if ok && o.clear {
      left := AndNot(flags, recorded);
    }
  }

  class Event {
    const flag: Flag
    var flags: bv32                       // set
    var waiters: seq<Tid>                 // suspend_thread
    var eventSet: map<Tid, bv32>          // event_set of each thread
    var option: map<Tid, M.Option>        // event_info of each thread
    var error: map<Tid, int>
    var timed: set<Tid>                   // threads whose timer was started

    ghost var woken: set<Tid>
    ghost var pending: set<Tid>
    ghost var want: map<Tid, M.Flags>
    ghost var seen: map<Tid, M.Flags>

    ghost function State(): M.Event
      reads this
    {
      M.Event(Bits(flags), waiters, Words(eventSet), option, error, timed, woken, pending, want, seen)
    }

    ghost predicate Valid()
      reads this
    {
      M.Inv(State())
    }

    /** rt_event_init. */
    constructor (flag: Flag)
      ensures Valid() && State() == M.Initial() && this.flag == flag
    {
      this.flag := flag;
      flags, waiters, eventSet, option, error, timed := 0, [], map[], map[], map[], {};
      woken, pending, want, seen := {}, {}, map[], map[];
      new;
      ZeroBits(0);
      assert Words(eventSet) == map[];
    }

    /** The scan of rt_event_send. */
    method Scan() returns (ghost got: set<Tid>, ghost saw: map<Tid, M.Flags>)
      requires Distinct(waiters) && M.Known(waiters, Words(eventSet), option)
      modifies `flags, `waiters, `eventSet
      ensures var s := M.Scanned(old(waiters), Bits(old(flags)), Words(old(eventSet)), option);
        Bits(flags) == s.flags && waiters == s.waiters && Words(eventSet) == s.eventSet && got == s.woken && saw == s.seen
    {
      ghost var s := M.Scanned(waiters, Bits(flags), Words(eventSet), option);
      got, saw := {}, map[];
      var n := 0;
      assert waiters[n..] == waiters;
      while n < |waiters|
        invariant 0 <= n <= |waiters| && Distinct(waiters) && M.Known(waiters, Words(eventSet), option)
        invariant s == Joined(waiters[..n], got, saw, M.Scanned(waiters[n..], Bits(flags), Words(eventSet), option))
        decreases |waiters| - n
      {
        var woke: bool;
        woke, got, saw := Consider(n, s, got, saw);
        if !woke {
          n := n + 1;
        }
      }
    }

    /** The scan comes to waiter n: it leaves the list when its condition holds. s is where the scan ends. */
    method Consider(n: nat, ghost s: M.Scan, ghost got: set<Tid>, ghost saw: map<Tid, M.Flags>)
      returns (woke: bool, ghost got1: set<Tid>, ghost saw1: map<Tid, M.Flags>)
      requires n < |waiters| && Distinct(waiters) && M.Known(waiters, Words(eventSet), option)
      requires s == Joined(waiters[..n], got, saw, M.Scanned(waiters[n..], Bits(flags), Words(eventSet), option))
      modifies `flags, `waiters, `eventSet
      ensures |waiters| == old(|waiters|) - if woke then 1 else 0
      ensures Distinct(waiters) && M.Known(waiters, Words(eventSet), option)
      ensures var m := if woke then n else n + 1;
        s == Joined(waiters[..m], got1, saw1, M.Scanned(waiters[m..], Bits(flags), Words(eventSet), option))
    {
      var t := waiters[n];
      var ok, recorded, left := Judge(eventSet[t], option[t], flags);
      ScanFirst(waiters, n, got, saw, Bits(flags), Words(eventSet), option);
      woke, got1, saw1 := ok, got, saw;
      if ok {
        WordsUpdate(eventSet, t, recorded);
        got1, saw1 := got + {t}, saw[t := Bits(flags)];
        eventSet := eventSet[t := recorded];
        flags := left;
        Without(waiters, n);
        waiters := waiters[..n] + waiters[n + 1..];
      }
    }

    /** rt_event_send. */
    method Send(set_: bv32) returns (o: Outcome)
      requires Valid()
      modifies this
      ensures Valid() && (State(), Meaning(o)) == M.Next(old(State()), M.Send(Bits(set_)), flag)
    {
      M.NextKeepsInv(State(), M.Send(Bits(set_)), flag);
      M.KnownWaiters(State());
      o := AddFlags(set_);
    }

    method AddFlags(set_: bv32) returns (o: Outcome)
      requires Distinct(waiters) && M.Known(waiters, Words(eventSet), option)
      modifies this
      ensures (State(), Meaning(o)) == M.SendStep(old(State()), Bits(set_))
    {
      var none := IsZero(set_);
      if none {
        return Failed(ERROR);
      }
      flags := Or(flags, set_);
      ghost var got, saw := Scan();
      woken, seen := woken + got, seen + saw;
      o := Done;
    }

    /** rt_event_recv up to its return or suspension. */
    method Recv(t: Tid, set_: bv32, o: M.Option, timeout: int, prio: map<Tid, int>) returns (out: Outcome)
      requires Valid() && M.Enabled(State(), M.Recv(t, Bits(set_), o, timeout, prio))
      modifies this
      ensures Valid() && (State(), Meaning(out)) == M.Next(old(State()), M.Recv(t, Bits(set_), o, timeout, prio), flag)
    {
      M.NextKeepsInv(State(), M.Recv(t, Bits(set_), o, timeout, prio), flag);
      out := TakeOrWait(t, set_, o, timeout, prio);
    }

    method TakeOrWait(t: Tid, set_: bv32, o: M.Option, timeout: int, prio: map<Tid, int>) returns (out: Outcome)
      requires Ranked(waiters, prio) && t in prio
      modifies this
      ensures (State(), Meaning(out)) == M.RecvStep(old(State()), t, Bits(set_), o, timeout, flag, prio)
    {
      var none := IsZero(set_);
      if none {
        return Failed(ERROR);
      }
      error := error[t := EOK];
      var ok, recorded, left := Judge(set_, o.(clear := false), flags);
      if ok {
        var recved := And(flags, set_);
        out := Received(recved);
        if o.clear {
          flags := AndNot(flags, set_);
        }
      } else if timeout == 0 {
        error := error[t := ETIMEOUT];
        out := Failed(ETIMEOUT);
      } else {
        Wait(t, set_, o, timeout, prio);
        out := Pending;
      }
    }

    /** The thread notes what it waits for and suspends. */
    method Wait(t: Tid, set_: bv32, o: M.Option, timeout: int, prio: map<Tid, int>)
      requires Ranked(waiters, prio) && t in prio
      modifies `eventSet, `option, `waiters, `timed, `pending, `want
      ensures State() == M.WaitStep(old(State()), t, Bits(set_), o, timeout, flag, prio)
    {
      WordsUpdate(eventSet, t, set_);
      eventSet := eventSet[t := set_];
      option := option[t := o];
      waiters := Suspend(waiters, t, flag, prio);
      timed := if timeout > 0 then timed + {t} else timed - {t};
      pending, want := pending + {t}, want[t := Bits(set_)];
    }

    /** The rest of rt_event_recv after the scheduler returned. */
    method Run(t: Tid) returns (out: Outcome)
      requires Valid() && M.Enabled(State(), M.Run(t))
      modifies this
      ensures Valid() && (State(), Meaning(out)) == M.Next(old(State()), M.Run(t), flag)
    {
      M.NextKeepsInv(State(), M.Run(t), flag);
      pending, woken := pending - {t}, woken - {t};
      assert t in Words(eventSet);
      if error[t] != EOK {
        return Failed(error[t]);
      }
      out := Received(eventSet[t]);
    }

    /** rt_thread_timeout for a thread that waits here. */
    method Expire(t: Tid)
      requires Valid() && M.Enabled(State(), M.Expire(t))
      modifies this
      ensures Valid() && State() == M.Next(old(State()), M.Expire(t), flag).0
    {
      M.NextKeepsInv(State(), M.Expire(t), flag);
      error := error[t := ETIMEOUT];
      waiters := Dropped(waiters, t);
    }

    /** rt_event_control with the reset command. */
    method Reset()
      requires Valid()
      modifies this
      ensures Valid() && State() == M.Next(old(State()), M.Reset, flag).0
    {
      M.NextKeepsInv(State(), M.Reset, flag);
      while waiters != []
        invariant AllFailed(error, waiters) == AllFailed(old(error), old(waiters))
        modifies `waiters, `error
        decreases |waiters|
      {
        error := error[waiters[0] := ERROR];
        waiters := waiters[1..];
      }
      flags := 0;
      ZeroBits(0);
    }
  }

  /** A scan that kept the waiters in front and woke got so far, finished by r. */
  ghost function Joined(front: seq<Tid>, got: set<Tid>, saw: map<Tid, M.Flags>, r: M.Scan): M.Scan
  {
    r.(waiters := front + r.waiters, woken := got + r.woken, seen := saw + r.seen)
  }

  /** One waiter further. */
  lemma ScanFirst(l: seq<Tid>, n: nat, got: set<Tid>, saw: map<Tid, M.Flags>, flags: M.Flags,
      eventSet: map<Tid, M.Flags>, option: map<Tid, M.Option>)
    requires n < |l| && Distinct(l) && M.Known(l, eventSet, option)
    ensures var t := l[n];
      var w, o := eventSet[t], option[t];
      var r := Joined(l[..n], got, saw, M.Scanned(l[n..], flags, eventSet, option));
      if M.Satisfied(w, o, flags) then
        r == Joined(l[..n], got + {t}, saw[t := flags],
          M.Scanned(l[n + 1..], M.Left(w, o, flags), eventSet[t := M.Recorded(w, o, flags)], option))
      else r == Joined(l[..n + 1], got, saw, M.Scanned(l[n + 1..], flags, eventSet, option))
  {
    var t := l[n];
    var w, o := eventSet[t], option[t];
    assert l[n..][1..] == l[n + 1..] && l[n..][0] == t;
    if M.Satisfied(w, o, flags) {
      var r := M.Scanned(l[n + 1..], M.Left(w, o, flags), eventSet[t := M.Recorded(w, o, flags)], option);
      PopDistinct(l[n..]);
      M.ScanSettles(l[n + 1..], M.Left(w, o, flags), eventSet[t := M.Recorded(w, o, flags)], option);
      assert t !in r.seen;
      assert saw + r.seen[t := flags] == saw[t := flags] + r.seen;
      assert got + (r.woken + {t}) == (got + {t}) + r.woken;
    } else {
      var r := M.Scanned(l[n + 1..], flags, eventSet, option);
      assert l[..n] + ([t] + r.waiters) == l[..n + 1] + r.waiters;
    }
  }

  lemma Without(l: seq<Tid>, n: nat)
    requires n < |l| && Distinct(l)
    ensures Distinct(l[..n] + l[n + 1..]) && (l[..n] + l[n + 1..])[n..] == l[n + 1..] && (l[..n] + l[n + 1..])[..n] == l[..n]
  {
  }
}
