/** The message queue object: cells chained through their link fields, changed in place. */
module MessageQueue {
  import opened Basics
  import opened Ring
  import opened WaitList
  import opened QueueModel
  import opened Chains

  const ALIGN := 4
  const CELLHEADER := 4  // sizeof(struct rt_mq_message)

  /** Cells that wait to be linked at the end already end the chain. */
  ghost predicate Ended(next: map<int, int>, pcs: map<Tid, Pc>)
  {
    forall t :: t in pcs ==> EndedAt(next, pcs[t])
  }

  ghost predicate EndedAt(next: map<int, int>, p: Pc)
  {
    p.Sending? && p.ended && !p.urgent ==> p.cell in next && next[p.cell] == NULL
  }

  lemma EndedApart(q: Queue, next: map<int, int>, t: Tid, v: int)
    requires CellInv(q) && Ended(next, q.pcs) && t in q.pcs && !q.pcs[t].Waiting?
    ensures Ended(next[q.pcs[t].cell := v], q.pcs - {t})
  {
    HeldAlone(q, t);
    forall u | u in q.pcs - {t} ensures EndedAt(next[q.pcs[t].cell := v], q.pcs[u]) { assert EndedAt(next, q.pcs[u]); }
  }

  lemma EndedOther(q: Queue, next: map<int, int>, c: int, v: int)
    requires CellInv(q) && Ended(next, q.pcs) && (c in q.free || c in q.queue)
    ensures Ended(next[c := v], q.pcs)
  {
    assert InOnePlace(q.free, q.queue, q.pcs, c);
    forall u | u in q.pcs ensures EndedAt(next[c := v], q.pcs[u]) {
      assert EndedAt(next, q.pcs[u]);
      assert !Holds(q.pcs[u], c);
    }
  }

  lemma EndedUpdate(next: map<int, int>, pcs: map<Tid, Pc>, t: Tid, p: Pc)
    requires Ended(next, pcs - {t}) && EndedAt(next, p)
    ensures Ended(next, pcs[t := p])
  {
    var pcs' := pcs[t := p];
    forall u | u in pcs' ensures EndedAt(next, pcs'[u]) {
      if u != t { assert u in pcs - {t}; }
    }
  }

  class MessageQueue {
    const msgSize: nat
    const flag: Flag
    var next: map<int, int>              // link field of each cell
    var content: map<int, seq<Byte>>     // payload bytes of each cell
    var head: int                        // msg_queue_head
    var tail: int                        // msg_queue_tail
    var free: int                        // msg_queue_free
    var entry: int
    var waiters: seq<Tid>                // suspend_thread
    var pcs: map<Tid, Pc>                // the locals of calls in progress
    var error: map<Tid, int>

    ghost const cells: set<int>
    ghost var freeList: seq<int>
    ghost var queue: seq<int>
    ghost var messages: seq<seq<Byte>>
    ghost var woken: set<Tid>
    ghost var taken: map<Tid, seq<Byte>>

    ghost function State(): Queue
      reads this
    {
      Queue(msgSize, cells, content, freeList, queue, messages, entry, waiters, woken, pcs, error, taken)
    }

    /** The pointers describe the two chains; tail is the last queued cell, or null exactly when none is queued. */
    ghost predicate Linked()
      reads this
    {
      && Chain(next, free, freeList)
      && Chain(next, head, queue)
      && tail == (if queue == [] then NULL else queue[|queue| - 1])
      && Ended(next, pcs)
    }

    ghost predicate Valid()
      reads this
    {
      Inv(State()) && Linked() && NULL !in cells
    }

    /** rt_mq_init over a buffer at address pool whose bytes are memory. */
    constructor (pool: int, msgSize: nat, poolSize: nat, memory: map<int, seq<Byte>>, flag: Flag)
      requires pool > 0
      requires var size := (msgSize + ALIGN - 1) / ALIGN * ALIGN;
        var step := size + CELLHEADER;
        && memory.Keys == (set i | 0 <= i < poolSize / step :: CellAt(pool, step, i))
        && forall c :: c in memory ==> |memory[c]| == size
      ensures Valid()
      ensures this.msgSize == (msgSize + ALIGN - 1) / ALIGN * ALIGN && this.flag == flag
      ensures |freeList| == poolSize / (this.msgSize + CELLHEADER)
      ensures State() == Initial(this.msgSize, memory.Keys, memory, freeList)
    {
      var size := (msgSize + ALIGN - 1) / ALIGN * ALIGN;
      var step := size + CELLHEADER;
      var maxMsgs := poolSize / step;
      this.msgSize, this.flag, content, cells := size, flag, memory, memory.Keys;
      head, tail, entry := NULL, NULL, 0;
      waiters, pcs, error := [], map[], map[];
      queue, messages, woken, taken := [], [], {}, map[];
      var links, first, built := BuildFree(pool, step, maxMsgs);
      next, free, freeList := links, first, built;
      new;
      BuiltCells(built, pool, step, maxMsgs);
      assert forall c :: c in built <==> c in memory.Keys;
      InitialInv(size, memory.Keys, memory, built);
    }

    /** A message fits: a cell is taken from the free chain. */
    method TakeCell(t: Tid, data: seq<Byte>, urgent: bool) returns (o: Outcome)
      requires Valid() && Enabled(State(), Take(t, data, urgent))
      modifies this
      ensures Valid() && (State(), o) == Next(old(State()), Take(t, data, urgent), flag)
    {
      NextKeepsInv(State(), Take(t, data, urgent), flag);
      o := PopFree(t, data, urgent);
    }

    method PopFree(t: Tid, data: seq<Byte>, urgent: bool) returns (o: Outcome)
      requires Linked() && NULL !in cells && t !in pcs && forall c :: c in freeList ==> c in cells
      modifies this
      ensures Linked() && (State(), o) == QueueModel.TakeCell(old(State()), t, data, urgent)
    {
      if |data| > msgSize {
        return Failed(ERROR);
      }
      var msg := free;
      if msg == NULL {
        return Failed(EFULL);
      }
      ChainPop(next, free, freeList);
      free := next[msg];
      freeList := freeList[1..];
      pcs := pcs[t := Sending(msg, urgent, data, urgent, 0)];
      o := Pending;
    }

    /** Interrupts are enabled here: the held cell's link is cleared. */
    method EndCell(t: Tid)
      requires Valid() && Enabled(State(), End(t))
      modifies this
      ensures Valid() && State() == Next(old(State()), End(t), flag).0
    {
      NextKeepsInv(State(), End(t), flag);
      HeldAlone(State(), t);
      var msg := pcs[t].cell;
      ChainApart(next, free, freeList, msg, NULL);
      ChainApart(next, head, queue, msg, NULL);
      EndedApart(State(), next, t, NULL);
      EndedUpdate(next[msg := NULL], pcs, t, pcs[t].(ended := true));
      next := next[msg := NULL];
      pcs := pcs[t := pcs[t].(ended := true)];
    }

    /** Interrupts are enabled here: one byte goes into the held cell. */
    method CopyIn(t: Tid)
      requires Valid() && Enabled(State(), In(t))
      modifies this
      ensures Valid() && State() == Next(old(State()), In(t), flag).0
    {
      NextKeepsInv(State(), In(t), flag);
      CopyInKeepsData(State(), t);
      CopyByte(t);
    }

    method CopyByte(t: Tid)
      requires Linked() && t in pcs && pcs[t].Sending? && pcs[t].ended && pcs[t].copied < |pcs[t].data|
      requires pcs[t].cell in content && pcs[t].copied < |content[pcs[t].cell]|
      modifies this
      ensures Linked() && State() == QueueModel.CopyIn(old(State()), t)
    {
      var p := pcs[t];
      content := content[p.cell := content[p.cell][p.copied := p.data[p.copied]]];
      EndedUpdate(next, pcs, t, p.(copied := p.copied + 1));
      pcs := pcs[t := p.(copied := p.copied + 1)];
    }

    method Wake()
      modifies `waiters, `woken
      ensures State() == WakeFirst(old(State()))
    {
      if waiters != [] {
        woken := woken + {waiters[0]};
        waiters := waiters[1..];
      }
    }

    /** The cell becomes the first or the last of the queued chain, and the first waiter is resumed. */
    method LinkCell(t: Tid)
      requires Valid() && Enabled(State(), Link(t))
      modifies this
      ensures Valid() && State() == Next(old(State()), Link(t), flag).0
    {
      NextKeepsInv(State(), Link(t), flag);
      LinkMessage(t);
      Wake();
    }

    method LinkMessage(t: Tid)
      requires Linked() && CellInv(State()) && NULL !in cells && t in pcs && pcs[t].Sending? && pcs[t].ended
      modifies `next, `head, `tail, `queue, `pcs, `messages, `entry
      ensures Linked() && State() == QueueModel.LinkMessage(old(State()), t)
    {
      var p := pcs[t];
      LinkPointers(t, p.cell, p.urgent);
      messages := if p.urgent then [p.data] + messages else messages + [p.data];
      entry := entry + 1;
    }

    method LinkPointers(t: Tid, msg: int, urgent: bool)
      requires Linked() && CellInv(State()) && NULL !in cells && t in pcs && pcs[t].Sending? && pcs[t].ended && pcs[t].cell == msg && pcs[t].urgent == urgent
      modifies `next, `head, `tail, `queue, `pcs
      ensures Linked() && pcs == old(pcs) - {t}
      ensures queue == if urgent then [msg] + old(queue) else old(queue) + [msg]
    {
      HeldAlone(State(), t);
      ghost var q := State();
      assert EndedAt(next, pcs[t]);
      pcs := pcs - {t};
      if urgent {
        ChainApart(next, free, freeList, msg, head);
        ChainPush(next, head, queue, msg);
        EndedApart(q, next, t, head);
        next := next[msg := head];
        head := msg;
        if tail == NULL {
          tail := msg;
        }
        queue := [msg] + queue;
      } else {
        assert Ended(next, pcs) by { EndedApart(q, next, t, NULL); assert next[msg := NULL] == next; }
        if tail != NULL {
          TailApart(q, queue[|queue| - 1]);
          ChainApart(next, free, freeList, tail, msg);
          ChainAppend(next, head, queue, msg);
          EndedOther(q, next, tail, msg);
          next := next[tail := msg];
        } else {
          assert ChainAt(next, [msg], 0);
        }
        tail := msg;
        if head == NULL {
          head := msg;
        }
        queue := queue + [msg];
      }
    }

    /** One pass of a receive: suspend, or unlink the first cell. */
    method RecvPass(t: Tid, limit: nat, timeout: int, first: bool, prio: map<Tid, int>) returns (o: Outcome)
      requires Linked() && Ranked(waiters, prio) && t in prio && entry == |queue| == |messages| && Distinct(queue)
      requires t in pcs ==> pcs[t].Waiting?
      modifies this
      ensures Linked() && (State(), o) == RecvSection(old(State()), t, limit, timeout, first, flag, prio)
    {
      o := Pending;
      if entry == 0 {
        if timeout == 0 {
          if !first {
            error := error[t := ETIMEOUT];
          }
          pcs := pcs - {t};
          return Failed(ETIMEOUT);
        }
        error := error[t := EOK];
        waiters := Suspend(waiters, t, flag, prio);
        EndedUpdate(next, pcs, t, Waiting(limit, timeout));
        pcs := pcs[t := Waiting(limit, timeout)];
        return;
      }
      UnlinkHead(t, limit);
    }

    /** The first queued cell goes into the hand of t. */
    method UnlinkHead(t: Tid, limit: nat)
      requires Linked() && queue != [] && |queue| == |messages| && Distinct(queue)
      requires t in pcs ==> pcs[t].Waiting?
      modifies `head, `tail, `entry, `pcs, `taken, `queue, `messages
      ensures Linked() && queue == old(queue[1..]) && messages == old(messages[1..]) && entry == old(entry) - 1
      ensures pcs == old(pcs)[t := Receiving(old(queue)[0], limit, [])] && taken == old(taken)[t := old(messages)[0]]
    {
      var msg := head;
      ChainPop(next, head, queue);
      head := next[msg];
      if tail == msg {
        tail := NULL;
      }
      entry := entry - 1;
      EndedUpdate(next, pcs, t, Receiving(msg, limit, []));
      pcs := pcs[t := Receiving(msg, limit, [])];
      taken := taken[t := messages[0]];
      queue, messages := queue[1..], messages[1..];
    }

    /** rt_mq_recv up to its first suspension, failure or unlinked cell. */
    method Recv(t: Tid, limit: nat, timeout: int, prio: map<Tid, int>)  returns (o: Outcome)
      requires Valid() && Enabled(State(), Event.Recv(t, limit, timeout, prio))
      modifies this
      ensures Valid() && (State(), o) == Next(old(State()), Event.Recv(t, limit, timeout, prio), flag)
    {
      NextKeepsInv(State(), Event.Recv(t, limit, timeout, prio), flag);
      o := RecvPass(t, limit, timeout, true, prio);
    }

    /** The same after the scheduler returned to the suspended receiver. */
    method Run(t: Tid, elapsed: nat, prio: map<Tid, int>) returns (o: Outcome)
      requires Valid() && Enabled(State(), Event.Run(t, elapsed, prio))
      modifies this
      ensures Valid() && (State(), o) == Next(old(State()), Event.Run(t, elapsed, prio), flag)
    {
      NextKeepsInv(State(), Event.Run(t, elapsed, prio), flag);
      o := Resumed(t, elapsed, prio);
    }

    method Resumed(t: Tid, elapsed: nat, prio: map<Tid, int>) returns (o: Outcome)
      requires Linked() && Ranked(waiters, prio) && t in prio && entry == |queue| == |messages| && Distinct(queue)
      requires t in pcs && pcs[t].Waiting? && t in error
      modifies this
      ensures Linked() && (State(), o) == RunSection(old(State()), t, elapsed, flag, prio)
    {
      if error[t] != EOK {
        pcs := pcs - {t};
        return Failed(error[t]);
      }
      var timeout := pcs[t].timeout;
      if timeout > 0 {
        timeout := timeout - elapsed;
        if timeout < 0 {
          timeout := 0;
        }
      }
      woken := woken - {t};
      o := RecvPass(t, pcs[t].limit, timeout, false, prio);
    }

    /** Interrupts are enabled here: one byte comes out of the held cell. */
    method CopyOut(t: Tid)
      requires Valid() && Enabled(State(), Out(t))
      modifies this
      ensures Valid() && State() == Next(old(State()), Out(t), flag).0
    {
      NextKeepsInv(State(), Out(t), flag);
      CopyOutKeepsData(State(), t);
      var p := pcs[t];
      EndedUpdate(next, pcs, t, p.(got := p.got + [content[p.cell][|p.got|]]));
      pcs := pcs[t := p.(got := p.got + [content[p.cell][|p.got|]])];
    }

    /** The cell goes back to the free chain and the receive is complete. */
    method ReturnCell(t: Tid) returns (o: Outcome)
      requires Valid() && Enabled(State(), Return(t))
      modifies this
      ensures Valid() && (State(), o) == Next(old(State()), Return(t), flag)
    {
      NextKeepsInv(State(), Return(t), flag);
      o := GiveBack(t);
    }

    method GiveBack(t: Tid) returns (o: Outcome)
      requires Linked() && CellInv(State()) && NULL !in cells && t in pcs && pcs[t].Receiving?
      modifies this
      ensures Linked() && (State(), o) == QueueModel.ReturnCell(old(State()), t)
    {
      HeldAlone(State(), t);
      var p := pcs[t];
      var msg := p.cell;
      ChainApart(next, head, queue, msg, free);
      ChainPush(next, free, freeList, msg);
      EndedApart(State(), next, t, free);
      next := next[msg := free];
      free := msg;
      freeList := [msg] + freeList;
      pcs := pcs - {t};
      taken := taken - {t};
      o := Received(p.got);
    }

    /** rt_thread_timeout for a receiver that waits here. */
    method Expire(t: Tid)
      requires Valid() && Enabled(State(), Event.Expire(t))
      modifies this
      ensures Valid() && State() == Next(old(State()), Event.Expire(t), flag).0
    {
      NextKeepsInv(State(), Event.Expire(t), flag);
      error := error[t := ETIMEOUT];
      waiters := Dropped(waiters, t);
    }

    /** rt_ipc_list_resume_all. */
    method ResumeAll()
      modifies `waiters, `error
      ensures waiters == [] && error == AllFailed(old(error), old(waiters))
    {
      while waiters != []
        invariant AllFailed(error, waiters) == AllFailed(old(error), old(waiters))
        decreases |waiters|
      {
        error := error[waiters[0] := ERROR];
        waiters := waiters[1..];
      }
    }

    /** rt_mq_control with the reset command. */
    method Reset()
      requires Valid()
      modifies this
      ensures Valid() && State() == Next(old(State()), Event.Reset, flag).0
    {
      NextKeepsInv(State(), Event.Reset, flag);
      Empty();
    }

    method Empty()
      requires Linked() && CellInv(State())
      modifies this
      ensures Linked() && State() == ResetStep(old(State()))
    {
      ResumeAll();
      FreeAll();
      messages := [];
      entry := 0;
    }

    /** Every queued cell moves to the free chain. */
    method FreeAll()
      requires Linked() && CellInv(State())
      modifies `next, `head, `tail, `free, `queue, `freeList
      ensures Linked() && queue == [] && freeList == Pushed(old(freeList), old(queue))
    {
      while head != NULL
        invariant Linked() && CellInv(State())
        invariant Pushed(freeList, queue) == Pushed(old(freeList), old(queue))
        decreases |queue|
      {
        var msg := head;
        MoveKeepsCells(State());
        ChainPop(next, head, queue);
        head := next[msg];
        if tail == msg {
          tail := NULL;
        }
        ChainApart(next, head, queue[1..], msg, free);
        ChainPush(next, free, freeList, msg);
        EndedOther(State(), next, msg, free);
        next := next[msg := free];
        free := msg;
        freeList, queue := [msg] + freeList, queue[1..];
      }
    }
  }

  lemma TailApart(q: Queue, c: int)
    requires CellInv(q) && c in q.queue
    ensures c !in q.free
  {
    assert InOnePlace(q.free, q.queue, q.pcs, c);
  }

  lemma MoveKeepsCells(q: Queue)
    requires CellInv(q) && q.queue != []
    ensures q.queue[0] !in q.free && q.queue[0] !in q.queue[1..]
    ensures CellInv(q.(free := [q.queue[0]] + q.free, queue := q.queue[1..]))
  {
    PopDistinct(q.queue);
    var r := q.(free := [q.queue[0]] + q.free, queue := q.queue[1..]);
    assert q.queue[0] in q.queue;
    TailApart(q, q.queue[0]);
    forall c | c in r.cells
      ensures InOnePlace(r.free, r.queue, r.pcs, c)
    {
      assert InOnePlace(q.free, q.queue, q.pcs, c);
    }
  }

  /** Chains the cells of the buffer, the last one first. */
  method BuildFree(pool: int, step: nat, maxMsgs: nat) returns (links: map<int, int>, first: int, ghost built: seq<int>)
    requires pool > 0 && step > 0
    ensures Chain(links, first, built) && |built| == maxMsgs
    ensures forall i :: 0 <= i < maxMsgs ==> built[maxMsgs - 1 - i] == CellAt(pool, step, i)
  {
    links, first, built := map[], NULL, [];
    var temp := 0;
    while temp < maxMsgs
      invariant 0 <= temp <= maxMsgs && |built| == temp
      invariant Chain(links, first, built)
      invariant forall j :: 0 <= j < temp ==> built[j] == CellAt(pool, step, temp - 1 - j)
    {
      var c := CellAt(pool, step, temp);
      forall j | 0 <= j < temp ensures built[j] != c {
        Spaced(pool, step, temp - 1 - j, temp);
      }
      ChainPush(links, first, built, c);
      links := links[c := first];
      first := c;
      built := [c] + built;
      temp := temp + 1;
    }
  }

  function CellAt(pool: int, step: nat, i: nat): (c: int)
    requires pool > 0
    ensures c > 0
  {
    pool + i * step
  }

  lemma {:induction false} Multiples(step: nat, i: nat, j: nat)
    requires i < j
    ensures i * step + step <= j * step
  {
    if i + 1 < j { Multiples(step, i, j - 1); }
    assert j * step == (j - 1) * step + step;
  }

  lemma Spaced(pool: int, step: nat, i: nat, j: nat)
    requires pool > 0 && i < j && step > 0
    ensures CellAt(pool, step, i) < CellAt(pool, step, j)
  {
    Multiples(step, i, j);
  }

  lemma BuiltCells(built: seq<int>, pool: int, step: nat, n: nat)
    requires pool > 0 && step > 0 && |built| == n && forall i :: 0 <= i < n ==> built[n - 1 - i] == CellAt(pool, step, i)
    ensures Distinct(built)
    ensures forall c :: c in built <==> c in (set i | 0 <= i < n :: CellAt(pool, step, i))
  {
    forall j | 0 <= j < n ensures built[j] == CellAt(pool, step, n - 1 - j) {
      assert built[n - 1 - (n - 1 - j)] == CellAt(pool, step, n - 1 - j);
    }
    forall i, j | 0 <= i < j < n
      ensures built[i] != built[j]
    {
      Spaced(pool, step, n - 1 - j, n - 1 - i);
    }
    forall c | c in (set i | 0 <= i < n :: CellAt(pool, step, i))
      ensures c in built
    {
      var i :| 0 <= i < n && c == CellAt(pool, step, i);
      assert built[n - 1 - i] == c;
    }
  }
}
