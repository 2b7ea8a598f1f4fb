/** The mailbox object, changed in place by its interrupt-disabled sections. */
module Mailbox {
  import opened Ring
  import opened WaitList
  import opened MailboxModel

  class Mailbox {
    const size: nat
    const flag: Flag
    const pool: array<int>
    var inOff: int
    var outOff: int
    var entry: int
    var receivers: seq<Tid>          // suspend_thread
    var senders: seq<Tid>            // suspend_sender_thread
    var calls: map<Tid, Call>        // the locals of calls that have suspended
    var error: map<Tid, int>         // error field of each thread

    ghost var wokenR: set<Tid>
    ghost var wokenS: set<Tid>
    ghost var sent: seq<int>
    ghost var received: seq<int>

    ghost function State(): Box
      reads this, pool
    {
      Box(size, pool[..], inOff, outOff, entry, receivers, senders, wokenR, wokenS, calls, error, sent, received)
    }

    ghost predicate Valid()
      reads this, pool
    {
      Inv(State())
    }

    /** rt_mb_init. */
    constructor (pool: array<int>, size: nat, flag: Flag)
      requires size > 0 && pool.Length == size
      ensures Valid() && State() == Initial(size, pool[..]) && this.pool == pool && this.flag == flag
    {
      this.pool, this.size, this.flag := pool, size, flag;
      entry, inOff, outOff := 0, 0, 0;
      receivers, senders, calls, error := [], [], map[], map[];
      wokenR, wokenS, sent, received := {}, {}, [], [];
    }

    /** Stores a mail at the input offset and wakes the first waiting receiver. */
    method Put(v: int)
      requires size == pool.Length && 0 <= inOff < size
      modifies this, pool
      ensures State() == WakeReceiver(PutStep(old(State()), v))
    {
      ghost var old_ := pool[..];
      pool[inOff] := v;
      assert pool[..] == old_[inOff := v];
      inOff := inOff + 1;
      if inOff >= size {
        inOff := 0;
      }
      entry := entry + 1;
      sent := sent + [v];
      if receivers != [] {
        wokenR := wokenR + {receivers[0]};
        receivers := receivers[1..];
      }
    }

    /** Fetches the mail at the output offset and wakes the first waiting sender. */
    method Get() returns (v: int)
      requires size == pool.Length && 0 <= outOff < size
      modifies this
      ensures v == old(pool[outOff]) && State() == WakeSender(TakeStep(old(State())))
    {
      v := pool[outOff];
      received := received + [v];
      outOff := outOff + 1;
      if outOff >= size {
        outOff := 0;
      }
      entry := entry - 1;
      if senders != [] {
        wokenS := wokenS + {senders[0]};
        senders := senders[1..];
      }
    }

    /** rt_mb_send_wait from its full test to the end of the section. */
    method SendPass(t: Tid, v: int, timeout: int, first: bool, prio: map<Tid, int>) returns (o: Outcome)
      requires size == pool.Length && 0 <= inOff < size && Ranked(senders, prio) && t in prio
      modifies this, pool
      ensures (State(), o) == SendSection(old(State()), t, v, timeout, first, flag, prio)
    {
      if entry == size {
        if !first {
          error := error[t := EOK];
        }
        if timeout == 0 {
          calls := calls - {t};
          return Failed(EFULL);
        }
        error := error[t := EOK];
        senders := Suspend(senders, t, flag, prio);
        calls := calls[t := SendCall(v, timeout)];
        assert error == old(error)[t := EOK];
        return Blocked;
      }
      calls := calls - {t};
      Put(v);
      o := Sent;
    }

    /** rt_mb_recv from its empty test to the end of the section. */
    method RecvPass(t: Tid, timeout: int, first: bool, prio: map<Tid, int>) returns (o: Outcome)
      requires size == pool.Length && 0 <= outOff < size && Ranked(receivers, prio) && t in prio
      modifies this
      ensures (State(), o) == RecvSection(old(State()), t, timeout, first, flag, prio)
    {
      if entry == 0 {
        if timeout == 0 {
          if !first {
            error := error[t := ETIMEOUT];
          }
          calls := calls - {t};
          return Failed(ETIMEOUT);
        }
        error := error[t := EOK];
        receivers := Suspend(receivers, t, flag, prio);
        calls := calls[t := RecvCall(timeout)];
        return Blocked;
      }
      calls := calls - {t};
      var v := Get();
      o := Received(v);
    }

    /** rt_mb_send_wait up to its first return or suspension. */
    method Send(t: Tid, v: int, timeout: int, prio: map<Tid, int>) returns (o: Outcome)
      requires Valid() && Enabled(State(), Event.Send(t, v, timeout, prio))
      modifies this, pool
      ensures Valid() && (State(), o) == Next(old(State()), Event.Send(t, v, timeout, prio), flag)
    {
      NextKeepsInv(State(), Event.Send(t, v, timeout, prio), flag);
      o := SendPass(t, v, timeout, true, prio);
    }

    /** rt_mb_recv up to its first return or suspension. */
    method Recv(t: Tid, timeout: int, prio: map<Tid, int>) returns (o: Outcome)
      requires Valid() && Enabled(State(), Event.Recv(t, timeout, prio))
      modifies this
      ensures Valid() && (State(), o) == Next(old(State()), Event.Recv(t, timeout, prio), flag)
    {
      NextKeepsInv(State(), Event.Recv(t, timeout, prio), flag);
      o := RecvPass(t, timeout, true, prio);
    }

    /** Either call, from the return of the scheduler to its next return or suspension. */
    method Run(t: Tid, elapsed: nat, prio: map<Tid, int>) returns (o: Outcome)
      requires Valid() && Enabled(State(), Event.Run(t, elapsed, prio))
      modifies this, pool
      ensures Valid() && (State(), o) == Next(old(State()), Event.Run(t, elapsed, prio), flag)
    {
      NextKeepsInv(State(), Event.Run(t, elapsed, prio), flag);
      o := Resumed(t, elapsed, prio);
    }

    method Resumed(t: Tid, elapsed: nat, prio: map<Tid, int>) returns (o: Outcome)
      requires size == pool.Length && 0 <= inOff < size && 0 <= outOff < size
      requires Ranked(senders, prio) && Ranked(receivers, prio) && t in prio && t in calls && t in error
      modifies this, pool
      ensures (State(), o) == RunSection(old(State()), t, elapsed, flag, prio)
    {
      if error[t] != EOK {
        calls := calls - {t};
        return Failed(error[t]);
      }
      var timeout := calls[t].timeout;
      if timeout > 0 {
        timeout := timeout - elapsed;
        if timeout < 0 {
          timeout := 0;
        }
      }
      match calls[t]
      case SendCall(v, _) =>
        wokenS := wokenS - {t};
        o := SendPass(t, v, timeout, false, prio);
      case RecvCall(_) =>
        wokenR := wokenR - {t};
        o := RecvPass(t, timeout, false, prio);
    }

    /** rt_thread_timeout for a thread that waits here. */
    method Expire(t: Tid)
      requires Valid() && Enabled(State(), Event.Expire(t))
      modifies this
      ensures Valid() && State() == Next(old(State()), Event.Expire(t), flag).0
    {
      NextKeepsInv(State(), Event.Expire(t), flag);
      error := error[t := ETIMEOUT];
      receivers := Dropped(receivers, t);
      senders := Dropped(senders, t);
    }

    /** rt_mb_control with the reset command. */
    method Reset()
      requires Valid()
      modifies this
      ensures Valid() && State() == Next(old(State()), Event.Reset, flag).0
    {
      NextKeepsInv(State(), Event.Reset, flag);
      ResumeAll();
      entry, inOff, outOff := 0, 0, 0;
      sent, received := [], [];
    }

    /** rt_ipc_list_resume_all on both lists. */
    method ResumeAll()
      modifies `receivers, `senders, `error
      ensures receivers == senders == [] && error == AllFailed(AllFailed(old(error), old(receivers)), old(senders))
    {
      while receivers != []
        invariant AllFailed(error, receivers) == AllFailed(old(error), old(receivers)) && senders == old(senders)
        decreases |receivers|
      {
        error := error[receivers[0] := ERROR];
        receivers := receivers[1..];
      }
      while senders != []
        invariant AllFailed(error, senders) == AllFailed(AllFailed(old(error), old(receivers)), old(senders)) && receivers == []
        decreases |senders|
      {
        error := error[senders[0] := ERROR];
        senders := senders[1..];
      }
    }
  }
}
