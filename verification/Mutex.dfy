/** The mutex object and the thread priorities it changes. */
module Mutex {
  import opened Ring
  import opened WaitList
  import M = MutexModel

  class Mutex {
    const flag: Flag
    var value: int
    var owner: M.Owner
    var original: int                 // original_priority
    var hold: int
    var waiters: seq<Tid>             // suspend_thread
    var prio: map<Tid, int>           // current_priority of each thread
    var error: map<Tid, int>
    var timed: set<Tid>               // threads whose timer was started

    ghost var pending: set<Tid>
    ghost const base: map<Tid, int>
    ghost var waited: seq<Tid>
    ghost var net: map<Tid, int>

    ghost function State(): M.Mutex
      reads this
    {
      M.Mutex(value, owner, original, hold, waiters, prio, error, timed, pending, base, waited, net)
    }

    ghost predicate Valid()
      reads this
    {
      M.Inv(State(), flag)
    }

    /** rt_mutex_init, for threads that run at the priorities in prio. */
    constructor (prio: map<Tid, int>, flag: Flag)
      ensures Valid() && State() == M.Initial(prio) && this.flag == flag
    {
      this.flag, this.prio, base := flag, prio, prio;
      value, owner, original, hold := 1, M.Nobody, M.NOPRIORITY, 0;
      waiters, error, timed := [], map[], {};
      pending, waited, net := {}, [], map[];
      new;
      M.InitialInv(prio, flag);
    }

    /** The owner inherits a more urgent priority. */
    method Inherit(p: int)
      requires owner.By? && owner.t in prio
      modifies `prio
      ensures State() == M.Boost(old(State()), p)
    {
      if p < prio[owner.t] {
        prio := prio[owner.t := p];
      }
    }

    /** Suspends t behind the owner, which first inherits t's priority if that is more urgent. */
    method Wait(t: Tid, time: int)
      requires owner.By? && owner.t in prio && t in prio && Ranked(waiters, prio)
      modifies `prio, `waiters, `timed, `pending, `waited
      ensures State() == M.Block(old(State()), t, time, flag)
    {
      Inherit(prio[t]);
      waiters := Suspend(waiters, t, flag, prio);
      timed := if time > 0 then timed + {t} else timed - {t};
      pending, waited := pending + {t}, waited + [t];
    }

    /** rt_mutex_take up to its return or suspension. */
    method TakeOrWait(t: Tid, time: int) returns (o: M.Outcome)
      requires t in prio && Ranked(waiters, prio)
      requires value <= 0 ==> owner.By? && owner.t in prio
      modifies this
      ensures (State(), o) == M.TakeStep(old(State()), t, time, flag)
    {
      error := error[t := EOK];
      if owner == M.By(t) {
        hold := hold + 1;
        net := M.Count(net, t, 1);
        return M.Done;
      }
      if value > 0 {
        value := value - 1;
        owner := M.By(t);
        original := prio[t];
        hold := hold + 1;
        waited, net := [], M.Count(net, t, 1);
        return M.Done;
      }
      if time == 0 {
        error := error[t := ETIMEOUT];
        assert error == old(error)[t := ETIMEOUT];
        return M.Failed(ETIMEOUT);
      }
      Wait(t, time);
      o := M.Pending;
    }

    method Take(t: Tid, time: int) returns (o: M.Outcome)
      requires Valid() && M.Enabled(State(), M.Take(t, time))
      modifies this
      ensures Valid() && (State(), o) == M.Next(old(State()), M.Take(t, time), flag)
    {
      M.NextKeepsInv(State(), M.Take(t, time), flag);
      M.RankedWaiters(State(), flag);
      o := TakeOrWait(t, time);
    }

    method LetGo(t: Tid) returns (o: M.Outcome)
      requires waiters != [] ==> waiters[0] in prio
      requires owner == M.By(t) ==> t in prio
      modifies this
      ensures (State(), o) == M.ReleaseStep(old(State()), t)
    {
      if owner != M.By(t) {
        error := error[t := ERROR];
        return M.Failed(ERROR);
      }
      hold := hold - 1;
      net := M.Count(net, t, -1);
      o := M.Done;
      if hold == 0 {
        if original != prio[t] {
          prio := prio[t := original];
        }
        assert prio == old(prio)[t := original];
        PassOn();
      }
    }

    /** The first waiter becomes the owner; without one the mutex is free. */
    method PassOn()
      requires waiters != [] ==> waiters[0] in prio
      modifies `owner, `original, `hold, `waiters, `value, `waited, `net
      ensures State() == if old(waiters) != [] then M.HandOver(old(State())) else M.SetFree(old(State()))
    {
      if waiters != [] {
        var first := waiters[0];
        owner := M.By(first);
        original := prio[first];
        hold := hold + 1;
        waiters := waiters[1..];
        waited, net := [], M.Count(net, first, 1);
      } else {
        value := value + 1;
        owner := M.Nobody;
        original := M.NOPRIORITY;
        waited := [];
      }
    }

    /** rt_mutex_release. */
    method Release(t: Tid) returns (o: M.Outcome)
      requires Valid() && M.Enabled(State(), M.Release(t))
      modifies this
      ensures Valid() && (State(), o) == M.Next(old(State()), M.Release(t), flag)
    {
      M.NextKeepsInv(State(), M.Release(t), flag);
      M.ReleaseKeepsInv(State(), t, flag);
      M.RankedWaiters(State(), flag);
      o := LetGo(t);
    }

    /** The rest of rt_mutex_take after the scheduler returned. */
    method Run(t: Tid) returns (o: M.Outcome)
      requires Valid() && M.Enabled(State(), M.Run(t))
      modifies `pending
      ensures Valid() && (State(), o) == M.Next(old(State()), M.Run(t), flag)
    {
      M.NextKeepsInv(State(), M.Run(t), flag);
      pending := pending - {t};
      o := if error[t] != EOK then M.Failed(error[t]) else M.Done;
    }

    /** rt_thread_timeout for a thread that waits here. */
    method Expire(t: Tid)
      requires Valid() && M.Enabled(State(), M.Expire(t))
      modifies `error, `waiters
      ensures Valid() && State() == M.Next(old(State()), M.Expire(t), flag).0
    {
      M.NextKeepsInv(State(), M.Expire(t), flag);
      error := error[t := ETIMEOUT];
      waiters := Dropped(waiters, t);
    }
  }
}
