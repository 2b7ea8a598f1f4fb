/** When mailbox calls succeed, fail or wait, in every reachable state. */
module MailboxOutcomes {
  import opened Ring
  import opened WaitList
  import opened MailboxModel

  /** The mails that were accepted and not yet handed out. */
  function Stored(b: Box): seq<int>
    requires b.received <= b.sent
  {
    b.sent[|b.received|..]
  }

  ghost predicate Sends(b: Box, e: Event)
  {
    e.Send? || (e.Run? && e.t in b.calls && b.calls[e.t].SendCall? && e.t in b.error && b.error[e.t] == EOK)
  }

  ghost predicate Receives(b: Box, e: Event)
  {
    e.Recv? || (e.Run? && e.t in b.calls && b.calls[e.t].RecvCall? && e.t in b.error && b.error[e.t] == EOK)
  }

  /** The waiting time of a call that tries now. */
  ghost function TimeLeft(b: Box, e: Event): int
    requires Sends(b, e) || Receives(b, e)
  {
    if e.Run? then Remaining(b.calls[e.t].timeout, e.elapsed) else e.timeout
  }

  lemma SendPass(b: Box, t: Tid, v: int, timeout: int, first: bool, flag: Flag, prio: map<Tid, int>)
    requires RingInv(b) && Ranked(b.senders, prio) && t in prio
    ensures var (r, o) := SendSection(b, t, v, timeout, first, flag, prio);
      && (|Stored(b)| < b.size ==>
            && o == Sent && r.sent == b.sent + [v] && r.received == b.received && r.calls == b.calls - {t} && r.senders == b.senders
            && (b.receivers == [] ==> r.receivers == [] && r.wokenR == b.wokenR)
            && (b.receivers != [] ==> r.receivers == b.receivers[1..] && r.wokenR == b.wokenR + {b.receivers[0]}))
      && (|Stored(b)| >= b.size ==> r.sent == b.sent && r.received == b.received && r.receivers == b.receivers)
      && (|Stored(b)| >= b.size && timeout == 0 ==> o == Failed(EFULL) && r.calls == b.calls - {t} && r.senders == b.senders)
      && (|Stored(b)| >= b.size && timeout != 0 ==>
            && o == Blocked && r.calls == b.calls[t := SendCall(v, timeout)]
            && LinesUp(b.senders, r.senders, t, flag, prio) && r.error == b.error[t := EOK])
  {
    EnlistedLinesUp(b.senders, t, flag, prio);
  }

  /** A send, at its start or after a wake-up without an error: its mail is accepted exactly if the mailbox has room, and
      the first waiting receiver is resumed. Without room it fails if it has no waiting time, and otherwise waits. */
  lemma SendOutcome(b: Box, e: Event, flag: Flag)
    requires Inv(b) && Enabled(b, e) && Sends(b, e)
    ensures var (r, o) := Next(b, e, flag);
      && (|Stored(b)| < b.size ==>
            && o == Sent && r.sent == b.sent + [MailOf(b, e)] && r.received == b.received && r.calls == b.calls - {e.t}
            && (b.receivers != [] ==> r.receivers == b.receivers[1..] && r.wokenR == b.wokenR + {b.receivers[0]}))
      && (|Stored(b)| >= b.size ==> r.sent == b.sent && r.received == b.received && r.receivers == b.receivers)
      && (|Stored(b)| >= b.size && TimeLeft(b, e) == 0 ==> o == Failed(EFULL) && r.calls == b.calls - {e.t} && r.senders == b.senders)
      && (|Stored(b)| >= b.size && TimeLeft(b, e) != 0 ==>
            && o == Blocked && r.calls == b.calls[e.t := SendCall(MailOf(b, e), TimeLeft(b, e))]
            && LinesUp(b.senders, r.senders, e.t, flag, e.prio) && r.error == b.error[e.t := EOK])
  {
    if e.Send? {
      SendPass(b, e.t, e.value, e.timeout, true, flag, e.prio);
    } else {
      SendPass(b.(wokenS := b.wokenS - {e.t}), e.t, b.calls[e.t].value, TimeLeft(b, e), false, flag, e.prio);
    }
  }

  lemma RecvPass(b: Box, t: Tid, timeout: int, first: bool, flag: Flag, prio: map<Tid, int>)
    requires RingInv(b) && Ranked(b.receivers, prio) && t in prio
    ensures var (r, o) := RecvSection(b, t, timeout, first, flag, prio);
      && (Stored(b) != [] ==>
            && o == Received(Stored(b)[0]) && r.received == b.received + [Stored(b)[0]] && r.sent == b.sent
            && r.calls == b.calls - {t} && r.receivers == b.receivers
            && (b.senders == [] ==> r.senders == [] && r.wokenS == b.wokenS)
            && (b.senders != [] ==> r.senders == b.senders[1..] && r.wokenS == b.wokenS + {b.senders[0]}))
      && (Stored(b) == [] ==> r.sent == b.sent && r.received == b.received && r.senders == b.senders)
      && (Stored(b) == [] && timeout == 0 ==> o == Failed(ETIMEOUT) && r.calls == b.calls - {t} && r.receivers == b.receivers)
      && (Stored(b) == [] && timeout != 0 ==>
            && o == Blocked && r.calls == b.calls[t := RecvCall(timeout)]
            && LinesUp(b.receivers, r.receivers, t, flag, prio) && r.error == b.error[t := EOK])
  {
    EnlistedLinesUp(b.receivers, t, flag, prio);
    if b.entry > 0 { TakeKeepsRing(b); }
  }

  /** A receive gets the oldest mail whenever one is stored, and the first waiting sender is resumed. Without mail it
      fails if it has no waiting time, and otherwise waits. */
  lemma RecvOutcome(b: Box, e: Event, flag: Flag)
    requires Inv(b) && Enabled(b, e) && Receives(b, e)
    ensures var (r, o) := Next(b, e, flag);
      && (Stored(b) != [] ==>
            && o == Received(Stored(b)[0]) && r.received == b.received + [Stored(b)[0]] && r.sent == b.sent && r.calls == b.calls - {e.t}
            && (b.senders != [] ==> r.senders == b.senders[1..] && r.wokenS == b.wokenS + {b.senders[0]}))
      && (Stored(b) == [] ==> r.sent == b.sent && r.received == b.received && r.senders == b.senders)
      && (Stored(b) == [] && TimeLeft(b, e) == 0 ==> o == Failed(ETIMEOUT) && r.calls == b.calls - {e.t} && r.receivers == b.receivers)
      && (Stored(b) == [] && TimeLeft(b, e) != 0 ==>
            && o == Blocked && r.calls == b.calls[e.t := RecvCall(TimeLeft(b, e))]
            && LinesUp(b.receivers, r.receivers, e.t, flag, e.prio) && r.error == b.error[e.t := EOK])
  {
    if e.Recv? {
      RecvPass(b, e.t, e.timeout, true, flag, e.prio);
    } else {
      RecvPass(b.(wokenR := b.wokenR - {e.t}), e.t, TimeLeft(b, e), false, flag, e.prio);
    }
  }

  /** A waiting call whose timer expires, or whose mailbox is reset, reports that when it runs. */
  lemma FailureIsReported(b: Box, e: Event, t: Tid, elapsed: nat, prio: map<Tid, int>, flag: Flag)
    requires Inv(b) && (t in b.receivers || t in b.senders) && Enabled(b, e) && (e == Expire(t) || e.Reset?)
    ensures var r := Next(b, e, flag).0;
      && t !in r.receivers && t !in r.senders && r.calls == b.calls
      && (Enabled(r, Run(t, elapsed, prio)) ==>
            (NextKeepsInv(b, e, flag); Next(r, Run(t, elapsed, prio), flag)) ==
            (r.(calls := r.calls - {t}), Failed(if e.Reset? then ERROR else ETIMEOUT)))
  {
    NextKeepsInv(b, e, flag);
    AllFailedAt(b.error, b.receivers);
    AllFailedAt(AllFailed(b.error, b.receivers), b.senders);
    DroppedMembers(b.receivers, t);
    DroppedMembers(b.senders, t);
  }

  /** A reset forgets the stored mails and lets nobody wait. */
  lemma ResetOutcome(b: Box, flag: Flag)
    requires Inv(b)
    ensures (NextKeepsInv(b, Reset, flag); Stored(Next(b, Reset, flag).0)) == []
    ensures Next(b, Reset, flag).0.receivers == [] && Next(b, Reset, flag).0.senders == []
  {
  }

  /** No call gets stuck: a thread inside one waits in a list, or can run. */
  lemma NobodyIsStuck(b: Box, t: Tid, elapsed: nat, prio: map<Tid, int>)
    requires Inv(b) && t in b.calls && t in prio && Ranked(b.senders, prio) && Ranked(b.receivers, prio)
    ensures t in b.receivers || t in b.senders || Enabled(b, Run(t, elapsed, prio))
  {
  }
}
