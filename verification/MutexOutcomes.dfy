/** When mutex calls succeed, fail or wait, and what they do to the owner. */
module MutexOutcomes {
  import opened Basics
  import opened Ring
  import opened WaitList
  import opened MutexModel

  /** A take of a free mutex succeeds, and so does one by the owner, which nests. Of another thread's mutex it fails without
      waiting time, and otherwise waits, while the owner runs at least as urgently as the taker. */
  lemma TakeOutcome(m: Mutex, t: Tid, timeout: int, flag: Flag)
    requires Inv(m, flag) && Enabled(m, Take(t, timeout))
    ensures var (r, out) := Next(m, Take(t, timeout), flag);
      && (m.owner == Nobody ==>
            out == Done && r.owner == By(t) && r.hold == 1 && r.value == 0 && r.prio == m.prio && r.waiters == [] && r.pending == m.pending)
      && (m.owner == By(t) ==>
            && out == Done && r.owner == m.owner && r.hold == m.hold + 1 && r.value == m.value && r.prio == m.prio
            && r.waiters == m.waiters && r.pending == m.pending)
      && (m.owner.By? && m.owner != By(t) && timeout == 0 ==> out == Failed(ETIMEOUT) && r == m.(error := m.error[t := ETIMEOUT]))
      && (m.owner.By? && m.owner != By(t) && timeout != 0 ==>
            && out == Pending && r.owner == m.owner && r.hold == m.hold && r.pending == m.pending + {t}
            && r.error == m.error[t := EOK] && (t in r.timed <==> timeout > 0)
            && m.owner.t in m.prio && t in m.prio && r.prio == m.prio[m.owner.t := Min(m.prio[m.owner.t], m.prio[t])]
            && Ranked(m.waiters, r.prio) && LinesUp(m.waiters, r.waiters, t, flag, r.prio))
  {
    RankedWaiters(m, flag);
    if m.owner.By? && m.owner != By(t) {
      assert m.prio[m.owner.t := m.prio[m.owner.t]] == m.prio;
      EnlistedLinesUp(m.waiters, t, flag, Boost(m.(error := m.error[t := EOK]), m.prio[t]).prio);
    }
  }

  /** Only the owner can release, and only its last release lets go; then the first waiter owns the mutex, or nobody. */
  lemma ReleaseOutcome(m: Mutex, t: Tid, flag: Flag)
    requires Inv(m, flag) && Enabled(m, Release(t))
    ensures var (r, out) := Next(m, Release(t), flag);
      && (m.owner != By(t) ==> out == Failed(ERROR) && r == m.(error := m.error[t := ERROR]))
      && (m.owner == By(t) ==> out == Done)
      && (m.owner == By(t) && m.hold > 1 ==>
            r.owner == m.owner && r.hold == m.hold - 1 && r.value == m.value && r.prio == m.prio && r.waiters == m.waiters)
      && (m.owner == By(t) && m.hold == 1 && m.waiters == [] ==> r.owner == Nobody && r.hold == 0 && r.value == 1)
      && (m.owner == By(t) && m.hold == 1 && m.waiters != [] ==>
            r.owner == By(m.waiters[0]) && r.hold == 1 && r.value == 0 && r.waiters == m.waiters[1..])
      && r.pending == m.pending
  {
    RankedWaiters(m, flag);
  }

  /** A waiting take ends with the mutex in hand when it was handed over, or with an error after its time is over. */
  lemma EndOfWait(m: Mutex, s: Step, t: Tid, flag: Flag)
    requires Inv(m, flag) && t in m.waiters && Enabled(m, s) && (s == Expire(t) || s.Release?)
    ensures var r := Next(m, s, flag).0;
      && (s == Expire(t) ==> t !in r.waiters)
      && (t !in r.waiters ==>
            (NextKeepsInv(m, s, flag); Enabled(r, Run(t)) && Next(r, Run(t), flag) ==
              (r.(pending := r.pending - {t}), if s == Expire(t) then Failed(ETIMEOUT) else Done)
              && (s != Expire(t) ==> r.owner == By(t))))
  {
    NextKeepsInv(m, s, flag);
    RankedWaiters(m, flag);
    DroppedMembers(m.waiters, t);
    if m.waiters != [] { PopDistinct(m.waiters); }
  }
}
