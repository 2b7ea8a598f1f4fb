/** When message queue calls succeed, fail or wait, in every reachable state. */
module QueueOutcomes {
  import opened Ring
  import opened WaitList
  import opened QueueModel

  /** Some thread copies into or out of cell c. */
  ghost predicate InHand(q: Queue, c: int)
  {
    exists u :: u in q.pcs && Holds(q.pcs[u], c)
  }

  lemma FreeIff(q: Queue, c: int)
    requires Inv(q) && c in q.cells
    ensures c in q.free <==> c !in q.queue && !InHand(q, c)
  {
    assert InOnePlace(q.free, q.queue, q.pcs, c);
  }

  /** Whether a send takes a cell: not for a message that is too long, nor while each cell is queued or in a hand. A send
      that fails changes nothing; one that goes on holds a cell that nobody else had. */
  lemma SendOutcome(q: Queue, t: Tid, data: seq<Byte>, urgent: bool, flag: Flag) returns (c: int)
    requires Inv(q) && Enabled(q, Take(t, data, urgent))
    ensures var (r, o) := Next(q, Take(t, data, urgent), flag);
      && (o == Failed(ERROR) <==> |data| > q.msgSize)
      && (o == Failed(EFULL) <==> |data| <= q.msgSize && forall a :: a in q.cells ==> a in q.queue || InHand(q, a))
      && (o.Failed? ==> r == q)
      && (!o.Failed? ==>
            && o == Pending && c in q.cells && c !in q.queue && !InHand(q, c)
            && r.pcs == q.pcs[t := Sending(c, urgent, data, urgent, 0)]
            && r.queue == q.queue && r.messages == q.messages && r.content == q.content && r.waiters == q.waiters)
  {
    c := if q.free != [] then q.free[0] else 0;
    forall a | a in q.cells ensures a in q.free <==> a !in q.queue && !InHand(q, a) { FreeIff(q, a); }
    if q.free != [] { assert c in q.free && c in q.cells; }
  }

  /** Linking ends a send: its message is the last one, or the first one if it is urgent, and the first waiting receiver
      is resumed without an error. */
  lemma LinkOutcome(q: Queue, t: Tid, flag: Flag)
    requires Inv(q) && Enabled(q, Link(t))
    ensures var (r, o) := Next(q, Link(t), flag);
      && o == Sent && r.pcs == q.pcs - {t} && r.error == q.error
      && r.messages == (if q.pcs[t].urgent then [q.pcs[t].data] + q.messages else q.messages + [q.pcs[t].data])
      && (q.waiters == [] ==> r.waiters == [] && r.woken == q.woken)
      && (q.waiters != [] ==> q.waiters == [q.waiters[0]] + r.waiters && r.woken == q.woken + {q.waiters[0]}
                               && q.waiters[0] in r.error && r.error[q.waiters[0]] == EOK)
  {
    if q.waiters != [] { FirstWaits(q); }
  }

  lemma FirstWaits(q: Queue)
    requires Inv(q) && q.waiters != []
    ensures q.waiters[0] in q.error && q.error[q.waiters[0]] == EOK
  {
    var t: Tid := q.waiters[0];
    assert t in q.waiters;
    assert t in q.pcs;
  }

  /** The waiting time and the buffer size of a receive that tries now. */
  ghost function TimeLeft(q: Queue, e: Event): int
    requires Enabled(q, e) && (e.Recv? || e.Run?)
  {
    if e.Recv? then e.timeout else Remaining(q.pcs[e.t].timeout, e.elapsed)
  }

  ghost function LimitOf(q: Queue, e: Event): nat
    requires Enabled(q, e) && (e.Recv? || e.Run?)
  {
    if e.Recv? then e.limit else q.pcs[e.t].limit
  }

  /** A receive, at its start or after a wake-up without an error: it holds the first message if any is queued; or else it
      fails without waiting time, and otherwise waits in its place in the list. */
  lemma RecvOutcome(q: Queue, e: Event, flag: Flag)
    requires Inv(q) && Enabled(q, e) && (e.Recv? || (e.Run? && q.error[e.t] == EOK))
    ensures var (r, o) := Next(q, e, flag);
      && (q.messages != [] ==>
            && o == Pending && r.pcs == q.pcs[e.t := Receiving(q.queue[0], LimitOf(q, e), [])]
            && e.t in r.taken && r.taken[e.t] == q.messages[0] && r.messages == q.messages[1..] && r.waiters == q.waiters)
      && (q.messages == [] ==> r.messages == [] && r.free == q.free)
      && (q.messages == [] && TimeLeft(q, e) == 0 ==> o == Failed(ETIMEOUT) && r.pcs == q.pcs - {e.t} && r.waiters == q.waiters)
      && (q.messages == [] && TimeLeft(q, e) != 0 ==>
            && o == Pending && r.pcs == q.pcs[e.t := Waiting(LimitOf(q, e), TimeLeft(q, e))]
            && LinesUp(q.waiters, r.waiters, e.t, flag, e.prio) && r.error == q.error[e.t := EOK])
  {
    if e.Recv? {
      PassOutcome(q, e.t, e.limit, e.timeout, true, flag, e.prio);
    } else {
      PassOutcome(q.(woken := q.woken - {e.t}), e.t, q.pcs[e.t].limit, TimeLeft(q, e), false, flag, e.prio);
    }
  }

  lemma PassOutcome(q: Queue, t: Tid, limit: nat, timeout: int, first: bool, flag: Flag, prio: map<Tid, int>)
    requires Ranked(q.waiters, prio) && t in prio && q.entry == |q.queue| == |q.messages|
    ensures var (r, o) := RecvSection(q, t, limit, timeout, first, flag, prio);
      && (q.messages != [] ==>
            && o == Pending && r.pcs == q.pcs[t := Receiving(q.queue[0], limit, [])]
            && t in r.taken && r.taken[t] == q.messages[0] && r.messages == q.messages[1..] && r.waiters == q.waiters)
      && (q.messages == [] ==> r.messages == [] && r.free == q.free)
      && (q.messages == [] && timeout == 0 ==> o == Failed(ETIMEOUT) && r.pcs == q.pcs - {t} && r.waiters == q.waiters)
      && (q.messages == [] && timeout != 0 ==>
            && o == Pending && r.pcs == q.pcs[t := Waiting(limit, timeout)]
            && LinesUp(q.waiters, r.waiters, t, flag, prio) && r.error == q.error[t := EOK])
  {
    EnlistedLinesUp(q.waiters, t, flag, prio);
  }

  /** A completed receive hands over exactly as many bytes as both the buffer of the caller and a message have. */
  lemma DeliveredLength(q: Queue, t: Tid, flag: Flag)
    requires Inv(q) && Enabled(q, Return(t))
    ensures var (r, o) := Next(q, Return(t), flag);
      && o.Received? && |o.bytes| <= q.pcs[t].limit && |o.bytes| <= q.msgSize
      && (|o.bytes| == q.pcs[t].limit || |o.bytes| == q.msgSize)
      && r.pcs == q.pcs - {t} && r.queue == q.queue && r.free == [q.pcs[t].cell] + q.free
  {
  }

  /** A waiting receive whose timer expires, or whose queue is reset, reports that when it runs. */
  lemma FailureIsReported(q: Queue, e: Event, t: Tid, elapsed: nat, prio: map<Tid, int>, flag: Flag)
    requires Inv(q) && t in q.waiters && Enabled(q, e) && (e == Expire(t) || e.Reset?)
    ensures var r := Next(q, e, flag).0;
      && t !in r.waiters && r.pcs == q.pcs
      && (Enabled(r, Run(t, elapsed, prio)) ==>
            (NextKeepsInv(q, e, flag); Next(r, Run(t, elapsed, prio), flag)) ==
            (r.(pcs := r.pcs - {t}), Failed(if e.Reset? then ERROR else ETIMEOUT)))
  {
    NextKeepsInv(q, e, flag);
    AllFailedAt(q.error, q.waiters);
    DroppedMembers(q.waiters, t);
  }

  /** A reset empties the queue: its cells become free, and cells in the hands of threads stay there. */
  lemma ResetOutcome(q: Queue, flag: Flag)
    requires Inv(q)
    ensures var r := Next(q, Reset, flag).0;
      && r.messages == [] && r.queue == [] && r.waiters == [] && r.pcs == q.pcs && r.content == q.content
      && forall c :: c in q.cells ==> (c in r.free <==> c in q.free || c in q.queue)
  {
    forall c | c in q.queue ensures c !in q.free { assert InOnePlace(q.free, q.queue, q.pcs, c); }
    PushedMembers(q.free, q.queue);
  }

  /** No call gets stuck: a thread inside one waits in the list, or can take its next step. */
  lemma NobodyIsStuck(q: Queue, t: Tid, elapsed: nat, prio: map<Tid, int>)
    requires Inv(q) && t in q.pcs && t !in q.waiters && t in prio && Ranked(q.waiters, prio)
    ensures q.pcs[t].Sending? ==> Enabled(q, End(t)) || Enabled(q, In(t)) || Enabled(q, Link(t))
    ensures q.pcs[t].Waiting? ==> Enabled(q, Run(t, elapsed, prio))
    ensures q.pcs[t].Receiving? ==> Enabled(q, Out(t)) || Enabled(q, Return(t))
  {
    assert PcRight(q.content, q.msgSize, q.pcs[t]);
  }
}
