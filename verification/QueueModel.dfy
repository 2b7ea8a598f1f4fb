/** The message queue protocol as a state machine. A send takes a cell, copies into it with
    interrupts enabled and links it; a receive unlinks a cell, copies out with interrupts enabled
    and returns the cell. Copies proceed byte by byte, and every interrupt-disabled section and
    every copied byte is one step, so steps of different threads interleave in any order. */
module QueueModel {
  import Basics
  import opened Ring
  import opened WaitList

  type Byte = int

  /** Where a thread stands inside a call.
      Sending: holds cell, has written its first copied bytes; ended: the cell's link was cleared.
      Receiving: holds cell, has read the bytes in got. */
  datatype Pc =
    | Sending(cell: int, urgent: bool, data: seq<Byte>, ended: bool, copied: nat)
    | Waiting(limit: nat, timeout: int)
    | Receiving(cell: int, limit: nat, got: seq<Byte>)

  datatype Outcome = Pending | Failed(error: int) | Sent | Received(bytes: seq<Byte>)

  /** free and queue list the cells on the free chain and on the queued chain; messages are what the
      queued cells were linked with, taken what the cells in the hands of receivers were linked with;
      woken are the resumed receivers that did not run since. */
  datatype Queue = Queue(
    msgSize: nat, cells: set<int>, content: map<int, seq<Byte>>,
    free: seq<int>, queue: seq<int>, messages: seq<seq<Byte>>, entry: int,
    waiters: seq<Tid>, woken: set<Tid>, pcs: map<Tid, Pc>, error: map<Tid, int>, taken: map<Tid, seq<Byte>>)

  function Min(a: nat, b: nat): nat { if a < b then a else b }

  // ---- the steps

  /** First section of a send: take a cell from the free chain. */
  function TakeCell(q: Queue, t: Tid, data: seq<Byte>, urgent: bool): (Queue, Outcome)
  {
    if |data| > q.msgSize then (q, Failed(ERROR))
    else if q.free == [] then (q, Failed(EFULL))
    else (q.(free := q.free[1..], pcs := q.pcs[t := Sending(q.free[0], urgent, data, urgent, 0)]), Pending)
  }

  /** Unlocked: the new last message gets an empty link. */
  function EndCell(q: Queue, t: Tid): Queue
    requires t in q.pcs && q.pcs[t].Sending?
  {
    q.(pcs := q.pcs[t := q.pcs[t].(ended := true)])
  }

  /** Unlocked: one byte into the cell. */
  function CopyIn(q: Queue, t: Tid): Queue
    requires t in q.pcs && q.pcs[t].Sending? && q.pcs[t].copied < |q.pcs[t].data|
    requires q.pcs[t].cell in q.content && q.pcs[t].copied < |q.content[q.pcs[t].cell]|
  {
    var p := q.pcs[t];
    q.(content := q.content[p.cell := q.content[p.cell][p.copied := p.data[p.copied]]],
       pcs := q.pcs[t := p.(copied := p.copied + 1)])
  }

  function WakeFirst(q: Queue): Queue
  {
    if q.waiters == [] then q else q.(waiters := q.waiters[1..], woken := q.woken + {q.waiters[0]})
  }

  /** The cell joins its end of the queue. */
  function LinkMessage(q: Queue, t: Tid): Queue
    requires t in q.pcs && q.pcs[t].Sending?
  {
    var p := q.pcs[t];
    q.(
      queue := if p.urgent then [p.cell] + q.queue else q.queue + [p.cell],
      messages := if p.urgent then [p.data] + q.messages else q.messages + [p.data],
      entry := q.entry + 1, pcs := q.pcs - {t})
  }

  /** Second section of a send: link the cell at its end of the queue and wake the first waiter. */
  function LinkCell(q: Queue, t: Tid): Queue
    requires t in q.pcs && q.pcs[t].Sending?
  {
    WakeFirst(LinkMessage(q, t))
  }

  /** One pass of rt_mq_recv from its empty test on. */
  ghost function RecvSection(q: Queue, t: Tid, limit: nat, timeout: int, first: bool, flag: Flag, prio: map<Tid, int>): (Queue, Outcome)
    requires Ranked(q.waiters, prio) && t in prio && q.entry == |q.queue| == |q.messages|
  {
    if q.entry == 0 then
      if timeout == 0 then
        ((if first then q else q.(error := q.error[t := ETIMEOUT])).(pcs := q.pcs - {t}), Failed(ETIMEOUT))
      else
        (q.(error := q.error[t := EOK], waiters := Enlisted(q.waiters, t, flag, prio), pcs := q.pcs[t := Waiting(limit, timeout)]), Pending)
    else
      (q.(queue := q.queue[1..], messages := q.messages[1..], entry := q.entry - 1,
          pcs := q.pcs[t := Receiving(q.queue[0], limit, [])], taken := q.taken[t := q.messages[0]]), Pending)
  }

  /** A resumed receiver runs again: it reports its error, or takes another pass. */
  ghost function RunSection(q: Queue, t: Tid, elapsed: nat, flag: Flag, prio: map<Tid, int>): (Queue, Outcome)
    requires Ranked(q.waiters, prio) && t in prio && t in q.pcs && q.pcs[t].Waiting? && t in q.error
    requires q.entry == |q.queue| == |q.messages|
  {
    if q.error[t] != EOK then (q.(pcs := q.pcs - {t}), Failed(q.error[t]))
    else RecvSection(q.(woken := q.woken - {t}), t, q.pcs[t].limit, Remaining(q.pcs[t].timeout, elapsed), false, flag, prio)
  }

  /** Unlocked: one byte out of the cell. */
  function CopyOut(q: Queue, t: Tid): Queue
    requires t in q.pcs && q.pcs[t].Receiving?
    requires q.pcs[t].cell in q.content && |q.pcs[t].got| < |q.content[q.pcs[t].cell]|
  {
    var p := q.pcs[t];
    q.(pcs := q.pcs[t := p.(got := p.got + [q.content[p.cell][|p.got|]])])
  }

  /** Last section of a receive: the cell goes back to the free chain. */
  function ReturnCell(q: Queue, t: Tid): (Queue, Outcome)
    requires t in q.pcs && q.pcs[t].Receiving?
  {
    var p := q.pcs[t];
    (q.(free := [p.cell] + q.free, pcs := q.pcs - {t}, taken := q.taken - {t}), Received(p.got))
  }

  function ExpireStep(q: Queue, t: Tid): Queue
  {
    q.(error := q.error[t := ETIMEOUT], waiters := Dropped(q.waiters, t))
  }

  function Pushed(free: seq<int>, l: seq<int>): seq<int>
    decreases |l|
  {
    if l == [] then free else Pushed([l[0]] + free, l[1..])
  }

  /** rt_mq_control with the reset command: cells in the hands of a thread stay there. */
  function ResetStep(q: Queue): Queue
  {
    q.(error := AllFailed(q.error, q.waiters), waiters := [], free := Pushed(q.free, q.queue),
       queue := [], messages := [], entry := 0)
  }

  datatype Event =
    | Take(t: Tid, data: seq<Byte>, urgent: bool)
    | End(t: Tid)
    | In(t: Tid)
    | Link(t: Tid)
    | Recv(t: Tid, limit: nat, timeout: int, prio: map<Tid, int>)
    | Run(t: Tid, elapsed: nat, prio: map<Tid, int>)
    | Out(t: Tid)
    | Return(t: Tid)
    | Expire(t: Tid)
    | Reset

  ghost predicate Enabled(q: Queue, e: Event)
  {
    match e
    case Take(t, data, _) => t !in q.pcs && data != []
    case End(t) => t in q.pcs && q.pcs[t].Sending? && !q.pcs[t].ended
    case In(t) => t in q.pcs && q.pcs[t].Sending? && q.pcs[t].ended && q.pcs[t].copied < |q.pcs[t].data|
    case Link(t) => t in q.pcs && q.pcs[t].Sending? && q.pcs[t].ended && q.pcs[t].copied == |q.pcs[t].data|
    case Recv(t, limit, _, prio) => t !in q.pcs && limit > 0 && t in prio && Ranked(q.waiters, prio)
    case Run(t, _, prio) => t in q.pcs && q.pcs[t].Waiting? && t !in q.waiters && t in prio && Ranked(q.waiters, prio)
    case Out(t) => t in q.pcs && q.pcs[t].Receiving? && |q.pcs[t].got| < Min(q.pcs[t].limit, q.msgSize)
    case Return(t) => t in q.pcs && q.pcs[t].Receiving? && |q.pcs[t].got| == Min(q.pcs[t].limit, q.msgSize)
    case Expire(t) => t in q.waiters && t in q.pcs && q.pcs[t].Waiting? && q.pcs[t].timeout > 0
    case Reset => true
  }

  // ---- what every step keeps

  function Holds(p: Pc, c: int): bool
  {
    !p.Waiting? && p.cell == c
  }

  /** Cell c is in exactly one place: the free chain, the queued chain, or one thread's hand. */
  ghost predicate InOnePlace(free: seq<int>, queue: seq<int>, pcs: map<Tid, Pc>, c: int)
  {
    if c in free then c !in queue && forall t :: t in pcs ==> !Holds(pcs[t], c)
    else if c in queue then forall t :: t in pcs ==> !Holds(pcs[t], c)
    else exists t :: OnlyHolder(pcs, t, c)
  }

  ghost predicate OnlyHolder(pcs: map<Tid, Pc>, t: Tid, c: int)
  {
    t in pcs && Holds(pcs[t], c) && forall u :: u in pcs && u != t ==> !Holds(pcs[u], c)
  }

  ghost predicate CellInv(q: Queue)
  {
    && Basics.Distinct(q.free) && Basics.Distinct(q.queue)
    && (forall c :: c in q.free || c in q.queue ==> c in q.cells)
    && (forall t :: t in q.pcs && !q.pcs[t].Waiting? ==> q.pcs[t].cell in q.cells)
    && (forall c {:trigger InOnePlace(q.free, q.queue, q.pcs, c)} :: c in q.cells ==> InOnePlace(q.free, q.queue, q.pcs, c))
  }

  /** The first bytes of a linked cell are its message. */
  ghost predicate Carries(content: map<int, seq<Byte>>, c: int, m: seq<Byte>, n: nat)
  {
    c in content && n <= |m| <= |content[c]| && m[..n] == content[c][..n]
  }

  /** What a receiver has read so far is the front of its message, padded with old bytes. */
  ghost predicate ReadRight(got: seq<Byte>, m: seq<Byte>)
  {
    forall i :: 0 <= i < |got| && i < |m| ==> got[i] == m[i]
  }

  ghost predicate PcRight(content: map<int, seq<Byte>>, msgSize: nat, p: Pc)
  {
    match p
    case Sending(c, urgent, data, ended, copied) =>
      && Carries(content, c, data, copied) && (urgent ==> ended) && (copied > 0 ==> ended)
    case Waiting(limit, _) => limit > 0
    case Receiving(c, limit, got) => |got| <= Min(limit, msgSize)
  }

  ghost predicate TakenRight(content: map<int, seq<Byte>>, p: Pc, t: Tid, taken: map<Tid, seq<Byte>>)
  {
    p.Receiving? ==> t in taken && Carries(content, p.cell, taken[t], |taken[t]|) && ReadRight(p.got, taken[t])
  }

  ghost predicate DataInv(q: Queue)
  {
    && q.content.Keys == q.cells
    && (forall c :: c in q.cells ==> |q.content[c]| == q.msgSize)
    && |q.messages| == |q.queue|
    && (forall i :: 0 <= i < |q.queue| ==> Carries(q.content, q.queue[i], q.messages[i], |q.messages[i]|))
    && (forall t :: t in q.pcs ==> PcRight(q.content, q.msgSize, q.pcs[t]))
    && (forall t :: t in q.pcs ==> TakenRight(q.content, q.pcs[t], t, q.taken))
  }

  ghost predicate ListInv(waiters: seq<Tid>, woken: set<Tid>, pcs: map<Tid, Pc>, error: map<Tid, int>)
  {
    && Basics.Distinct(waiters)
    && (forall t :: t in waiters || t in woken ==> t in pcs && pcs[t].Waiting?)
    && (forall t :: t in waiters ==> t !in woken)
    && (forall t :: t in pcs && pcs[t].Waiting? ==> t in error)
    && (forall t :: t in pcs && pcs[t].Waiting? && error[t] == EOK <==> t in waiters || t in woken)
  }

  /** No wake-up is lost: while receivers wait, every queued message has a resumed receiver of its
      own on the way to it. */
  ghost predicate ThreadInv(q: Queue)
  {
    && q.entry == |q.queue|
    && ListInv(q.waiters, q.woken, q.pcs, q.error)
    && (q.waiters != [] ==> q.entry <= |q.woken|)
  }

  ghost predicate Inv(q: Queue)
  {
    CellInv(q) && DataInv(q) && ThreadInv(q)
  }

  /** A cell moves from a chain into the hand of t, or t only changes its place within its call. */
  lemma TakeKeepsCells(q: Queue, t: Tid, data: seq<Byte>, urgent: bool)
    requires CellInv(q) && t !in q.pcs
    ensures CellInv(TakeCell(q, t, data, urgent).0)
  {
    if |data| <= q.msgSize && q.free != [] {
      PopDistinct(q.free);
      var r := TakeCell(q, t, data, urgent).0;
      var a := q.free[0];
      assert InOnePlace(q.free, q.queue, q.pcs, a);
      forall c | c in r.cells
        ensures InOnePlace(r.free, r.queue, r.pcs, c)
      {
        assert InOnePlace(q.free, q.queue, q.pcs, c);
        if c == a {
          assert OnlyHolder(r.pcs, t, c);
        } else if c !in q.free && c !in q.queue {
          var u :| OnlyHolder(q.pcs, u, c);
          assert OnlyHolder(r.pcs, u, c);
        }
      }
    }
  }

  /** A change of t's place that keeps the cell in its hand. */
  lemma SameHandKeepsCells(q: Queue, r: Queue, t: Tid, p: Pc)
    requires CellInv(q) && t in q.pcs && r.pcs == q.pcs[t := p]
    requires r.cells == q.cells && r.free == q.free && r.queue == q.queue
    requires p.Waiting? == q.pcs[t].Waiting? && (!p.Waiting? ==> p.cell == q.pcs[t].cell)
    ensures CellInv(r)
  {
    forall c | c in r.cells
      ensures InOnePlace(r.free, r.queue, r.pcs, c)
    {
      assert InOnePlace(q.free, q.queue, q.pcs, c);
      if c !in q.free && c !in q.queue {
        var u :| OnlyHolder(q.pcs, u, c);
        assert OnlyHolder(r.pcs, u, c);
      }
    }
  }

  /** A cell leaves the hand of t for a chain. */
  lemma HandOverKeepsCells(q: Queue, r: Queue, t: Tid, toFree: bool)
    requires CellInv(q) && t in q.pcs && !q.pcs[t].Waiting?
    requires r.pcs == q.pcs - {t} && r.cells == q.cells
    requires Basics.Distinct(r.free) && Basics.Distinct(r.queue)
    requires forall c :: c in r.free <==> c in q.free || (toFree && c == q.pcs[t].cell)
    requires forall c :: c in r.queue <==> c in q.queue || (!toFree && c == q.pcs[t].cell)
    ensures CellInv(r)
  {
    var a := q.pcs[t].cell;
    assert InOnePlace(q.free, q.queue, q.pcs, a);
    forall c | c in r.cells
      ensures InOnePlace(r.free, r.queue, r.pcs, c)
    {
      assert InOnePlace(q.free, q.queue, q.pcs, c);
      if c != a && c !in q.free && c !in q.queue {
        var u :| OnlyHolder(q.pcs, u, c);
        assert OnlyHolder(r.pcs, u, c);
      }
    }
  }

  /** The head of the queue goes into the hand of t. */
  lemma UnlinkKeepsCells(q: Queue, r: Queue, t: Tid, p: Pc)
    requires CellInv(q) && (t in q.pcs ==> q.pcs[t].Waiting?) && q.queue != []
    requires r.pcs == q.pcs[t := p] && !p.Waiting? && p.cell == q.queue[0]
    requires r.cells == q.cells && r.free == q.free && r.queue == q.queue[1..]
    ensures CellInv(r)
  {
    PopDistinct(q.queue);
    var a := q.queue[0];
    assert InOnePlace(q.free, q.queue, q.pcs, a);
    forall c | c in r.cells
      ensures InOnePlace(r.free, r.queue, r.pcs, c)
    {
      assert InOnePlace(q.free, q.queue, q.pcs, c);
      if c == a {
        assert OnlyHolder(r.pcs, t, c);
      } else if c !in q.free && c !in q.queue {
        var u :| OnlyHolder(q.pcs, u, c);
        assert OnlyHolder(r.pcs, u, c);
      }
    }
  }

  /** A thread without a cell comes or goes. */
  lemma NoHandKeepsCells(q: Queue, r: Queue)
    requires CellInv(q) && r.cells == q.cells && r.free == q.free && r.queue == q.queue
    requires forall t :: t in q.pcs && !q.pcs[t].Waiting? ==> t in r.pcs && r.pcs[t] == q.pcs[t]
    requires forall t :: t in r.pcs && !r.pcs[t].Waiting? ==> t in q.pcs && r.pcs[t] == q.pcs[t]
    ensures CellInv(r)
  {
    forall c | c in r.cells
      ensures InOnePlace(r.free, r.queue, r.pcs, c)
    {
      assert InOnePlace(q.free, q.queue, q.pcs, c);
      if c !in q.free && c !in q.queue {
        var u :| OnlyHolder(q.pcs, u, c);
        assert OnlyHolder(r.pcs, u, c);
      }
    }
  }

  lemma {:induction false} PushedMembers(free: seq<int>, l: seq<int>)
    requires Basics.Distinct(free) && Basics.Distinct(l) && forall c :: c in l ==> c !in free
    ensures Basics.Distinct(Pushed(free, l))
    ensures forall c :: c in Pushed(free, l) <==> c in free || c in l
    decreases |l|
  {
    if l != [] {
      PopDistinct(l);
      PushedMembers([l[0]] + free, l[1..]);
    }
  }

  lemma ResetKeepsCells(q: Queue)
    requires CellInv(q)
    ensures CellInv(ResetStep(q))
  {
    var r := ResetStep(q);
    forall c | c in q.queue ensures c !in q.free { assert InOnePlace(q.free, q.queue, q.pcs, c); }
    PushedMembers(q.free, q.queue);
    forall c | c in r.cells
      ensures InOnePlace(r.free, r.queue, r.pcs, c)
    {
      assert InOnePlace(q.free, q.queue, q.pcs, c);
    }
  }

  // ---- the copies

  /** Nobody else reads or writes the cell that t holds: the unlocked copies do not race. */
  lemma HeldAlone(q: Queue, t: Tid)
    requires CellInv(q) && t in q.pcs && !q.pcs[t].Waiting?
    ensures q.pcs[t].cell in q.cells && q.pcs[t].cell !in q.free && q.pcs[t].cell !in q.queue
    ensures forall u :: u in q.pcs && u != t && !q.pcs[u].Waiting? ==> q.pcs[u].cell != q.pcs[t].cell
  {
    var c := q.pcs[t].cell;
    assert InOnePlace(q.free, q.queue, q.pcs, c);
    assert Holds(q.pcs[t], c);
    var w :| OnlyHolder(q.pcs, w, c);
    assert w == t;
    forall u | u in q.pcs && u != t && !q.pcs[u].Waiting?
      ensures q.pcs[u].cell != c
    {
      assert !Holds(q.pcs[u], c);
    }
  }

  lemma CarriesMore(content: map<int, seq<Byte>>, c: int, m: seq<Byte>, n: nat, k: int, b: seq<Byte>)
    requires Carries(content, c, m, n) && c != k
    ensures Carries(content[k := b], c, m, n)
  {
  }

  lemma CopyInKeepsData(q: Queue, t: Tid)
    requires CellInv(q) && DataInv(q) && Enabled(q, In(t))
    ensures q.pcs[t].cell in q.content && q.pcs[t].copied < |q.content[q.pcs[t].cell]|
    ensures DataInv(CopyIn(q, t))
  {
    HeldAlone(q, t);
    var p := q.pcs[t];
    assert PcRight(q.content, q.msgSize, p);
    var r := CopyIn(q, t);
    var old_, new_ := q.content[p.cell], r.content[p.cell];
    assert Carries(r.content, p.cell, p.data, p.copied + 1) by {
      assert p.data[..p.copied + 1] == p.data[..p.copied] + [p.data[p.copied]];
      assert new_[..p.copied + 1] == old_[..p.copied] + [p.data[p.copied]];
    }
    forall i | 0 <= i < |r.queue|
      ensures Carries(r.content, r.queue[i], r.messages[i], |r.messages[i]|)
    {
      CarriesMore(q.content, q.queue[i], q.messages[i], |q.messages[i]|, p.cell, new_);
    }
    forall u | u in r.pcs
      ensures PcRight(r.content, r.msgSize, r.pcs[u])
    {
      if u != t {
        assert PcRight(q.content, q.msgSize, q.pcs[u]);
      }
    }
    forall u | u in r.pcs
      ensures TakenRight(r.content, r.pcs[u], u, r.taken)
    {
      assert TakenRight(q.content, q.pcs[u], u, q.taken);
    }
  }

  lemma CopyOutKeepsData(q: Queue, t: Tid)
    requires CellInv(q) && DataInv(q) && Enabled(q, Out(t))
    ensures q.pcs[t].cell in q.content && |q.pcs[t].got| < |q.content[q.pcs[t].cell]|
    ensures DataInv(CopyOut(q, t))
  {
    var p := q.pcs[t];
    assert PcRight(q.content, q.msgSize, p);
    assert TakenRight(q.content, p, t, q.taken);
    var g, b, m := |p.got|, q.content[p.cell], q.taken[t];
    if g < |m| {
      assert m[g] == m[..|m|][g] == b[..|m|][g] == b[g];
    }
    assert TakenRight(q.content, CopyOut(q, t).pcs[t], t, q.taken);
    assert PcRight(q.content, q.msgSize, CopyOut(q, t).pcs[t]);
  }

  lemma TakeKeepsData(q: Queue, t: Tid, data: seq<Byte>, urgent: bool)
    requires CellInv(q) && DataInv(q)
    ensures DataInv(TakeCell(q, t, data, urgent).0)
  {
    if |data| <= q.msgSize && q.free != [] {
      var r := TakeCell(q, t, data, urgent).0;
      assert q.free[0] in q.cells;
      assert PcRight(r.content, r.msgSize, r.pcs[t]);
    }
  }

  lemma LinkKeepsData(q: Queue, t: Tid)
    requires DataInv(q) && Enabled(q, Link(t))
    ensures DataInv(LinkCell(q, t))
  {
    var p := q.pcs[t];
    assert PcRight(q.content, q.msgSize, p);
    var r := LinkCell(q, t);
    forall i | 0 <= i < |r.queue|
      ensures Carries(r.content, r.queue[i], r.messages[i], |r.messages[i]|)
    {
      if p.urgent {
        if i > 0 { assert r.queue[i] == q.queue[i - 1] && r.messages[i] == q.messages[i - 1]; }
      } else if i < |q.queue| {
        assert r.queue[i] == q.queue[i] && r.messages[i] == q.messages[i];
      }
    }
  }

  lemma UnlinkKeepsData(q: Queue, r: Queue, t: Tid, limit: nat)
    requires CellInv(q) && DataInv(q) && q.queue != [] && limit > 0
    requires r.content == q.content && r.cells == q.cells && r.msgSize == q.msgSize
    requires r.queue == q.queue[1..] && r.messages == q.messages[1..]
    requires r.pcs == q.pcs[t := Receiving(q.queue[0], limit, [])] && r.taken == q.taken[t := q.messages[0]]
    ensures DataInv(r)
  {
    assert Carries(q.content, q.queue[0], q.messages[0], |q.messages[0]|);
    forall i | 0 <= i < |r.queue|
      ensures Carries(r.content, r.queue[i], r.messages[i], |r.messages[i]|)
    {
      assert Carries(q.content, q.queue[i + 1], q.messages[i + 1], |q.messages[i + 1]|);
    }
  }

  // ---- the waiting receivers

  lemma LinkKeepsThreads(q: Queue, t: Tid)
    requires ThreadInv(q) && Enabled(q, Link(t))
    ensures ThreadInv(LinkCell(q, t))
  {
    if q.waiters != [] {
      PopDistinct(q.waiters);
      assert q.waiters[0] in q.waiters;
    }
  }

  /** A pass of t, which is in no list; its own earlier wake-up may still be counted. */
  lemma RecvKeeps(q: Queue, t: Tid, limit: nat, timeout: int, first: bool, flag: Flag, prio: map<Tid, int>)
    requires CellInv(q) && DataInv(q) && q.entry == |q.queue| && limit > 0
    requires ListInv(q.waiters, q.woken, q.pcs - {t}, q.error) && (t in q.pcs ==> q.pcs[t].Waiting?)
    requires q.waiters != [] ==> q.entry <= |q.woken| + 1
    requires Ranked(q.waiters, prio) && t in prio
    ensures Inv(RecvSection(q, t, limit, timeout, first, flag, prio).0)
  {
    var r := RecvSection(q, t, limit, timeout, first, flag, prio).0;
    if q.entry == 0 {
      NoHandKeepsCells(q, r);
      BlockKeeps(q, t, limit, timeout, first, flag, prio);
    } else {
      UnlinkKeeps(q, r, t, limit);
    }
  }

  lemma UnlinkKeeps(q: Queue, r: Queue, t: Tid, limit: nat)
    requires CellInv(q) && DataInv(q) && q.entry == |q.queue| > 0 && limit > 0
    requires ListInv(q.waiters, q.woken, q.pcs - {t}, q.error) && (t in q.pcs ==> q.pcs[t].Waiting?)
    requires q.waiters != [] ==> q.entry <= |q.woken| + 1
    requires r == q.(queue := q.queue[1..], messages := q.messages[1..], entry := q.entry - 1,
      pcs := q.pcs[t := Receiving(q.queue[0], limit, [])], taken := q.taken[t := q.messages[0]])
    ensures Inv(r)
  {
    UnlinkKeepsCells(q, r, t, r.pcs[t]);
    UnlinkKeepsData(q, r, t, limit);
    UnlinkKeepsLists(q.waiters, q.woken, q.pcs, q.error, t, r.pcs[t]);
  }

  lemma UnlinkKeepsLists(waiters: seq<Tid>, woken: set<Tid>, pcs: map<Tid, Pc>, error: map<Tid, int>, t: Tid, p: Pc)
    requires ListInv(waiters, woken, pcs - {t}, error) && !p.Waiting?
    ensures ListInv(waiters, woken, pcs[t := p], error)
  {
  }

  lemma BlockKeeps(q: Queue, t: Tid, limit: nat, timeout: int, first: bool, flag: Flag, prio: map<Tid, int>)
    requires DataInv(q) && q.entry == |q.queue| == 0 && limit > 0
    requires ListInv(q.waiters, q.woken, q.pcs - {t}, q.error)
    requires Ranked(q.waiters, prio) && t in prio
    ensures DataInv(RecvSection(q, t, limit, timeout, first, flag, prio).0)
    ensures ThreadInv(RecvSection(q, t, limit, timeout, first, flag, prio).0)
  {
    var r := RecvSection(q, t, limit, timeout, first, flag, prio).0;
    if timeout != 0 {
      EnlistedDistinct(q.waiters, t, flag, prio);
      assert PcRight(r.content, r.msgSize, r.pcs[t]);
    }
  }

  ghost function Next(q: Queue, e: Event, flag: Flag): (Queue, Outcome)
    requires Inv(q) && Enabled(q, e)
  {
    match e
    case Take(t, data, urgent) => TakeCell(q, t, data, urgent)
    case End(t) => (EndCell(q, t), Pending)
    case In(t) => CopyInKeepsData(q, t); (CopyIn(q, t), Pending)
    case Link(t) => (LinkCell(q, t), Sent)
    case Recv(t, limit, timeout, prio) => RecvSection(q, t, limit, timeout, true, flag, prio)
    case Run(t, elapsed, prio) => RunSection(q, t, elapsed, flag, prio)
    case Out(t) => CopyOutKeepsData(q, t); (CopyOut(q, t), Pending)
    case Return(t) => ReturnCell(q, t)
    case Expire(t) => (ExpireStep(q, t), Pending)
    case Reset => (ResetStep(q), Pending)
  }

  lemma TakeKeepsInv(q: Queue, t: Tid, data: seq<Byte>, urgent: bool)
    requires Inv(q) && t !in q.pcs
    ensures Inv(TakeCell(q, t, data, urgent).0)
  {
    TakeKeepsCells(q, t, data, urgent);
    TakeKeepsData(q, t, data, urgent);
  }

  lemma SendStagesKeepInv(q: Queue, e: Event, flag: Flag)
    requires Inv(q) && Enabled(q, e) && (e.End? || e.In?)
    ensures Inv(Next(q, e, flag).0)
  {
    var r := Next(q, e, flag).0;
    if e.In? { CopyInKeepsData(q, e.t); } else { assert PcRight(r.content, r.msgSize, r.pcs[e.t]); }
    SameHandKeepsCells(q, r, e.t, r.pcs[e.t]);
  }

  lemma LinkKeepsInv(q: Queue, t: Tid)
    requires Inv(q) && Enabled(q, Link(t))
    ensures Inv(LinkCell(q, t))
  {
    var r := LinkCell(q, t);
    HeldAlone(q, t);
    HandOverKeepsCells(q, r, t, false);
    LinkKeepsData(q, t);
    LinkKeepsThreads(q, t);
  }

  lemma OutKeepsInv(q: Queue, t: Tid)
    requires Inv(q) && Enabled(q, Out(t))
    ensures q.pcs[t].cell in q.content && |q.pcs[t].got| < |q.content[q.pcs[t].cell]|
    ensures Inv(CopyOut(q, t))
  {
    CopyOutKeepsData(q, t);
    SameHandKeepsCells(q, CopyOut(q, t), t, CopyOut(q, t).pcs[t]);
  }

  lemma ReturnKeepsInv(q: Queue, t: Tid)
    requires Inv(q) && Enabled(q, Return(t))
    ensures Inv(ReturnCell(q, t).0)
  {
    HeldAlone(q, t);
    HandOverKeepsCells(q, ReturnCell(q, t).0, t, true);
  }

  lemma RunKeepsInv(q: Queue, t: Tid, elapsed: nat, flag: Flag, prio: map<Tid, int>)
    requires Inv(q) && Enabled(q, Run(t, elapsed, prio))
    ensures Inv(RunSection(q, t, elapsed, flag, prio).0)
  {
    if q.error[t] != EOK {
      NoHandKeepsCells(q, q.(pcs := q.pcs - {t}));
    } else {
      assert |q.woken - {t}| == |q.woken| - 1;
      assert PcRight(q.content, q.msgSize, q.pcs[t]);
      RecvKeeps(q.(woken := q.woken - {t}), t, q.pcs[t].limit, Remaining(q.pcs[t].timeout, elapsed), false, flag, prio);
    }
  }

  lemma ExpireKeepsInv(q: Queue, t: Tid)
    requires Inv(q) && Enabled(q, Expire(t))
    ensures Inv(ExpireStep(q, t))
  {
    DroppedMembers(q.waiters, t);
    var r := ExpireStep(q, t);
    assert r.waiters != [] ==> r.waiters[0] in q.waiters;
    NoHandKeepsCells(q, r);
  }

  lemma ResetKeepsInv(q: Queue)
    requires Inv(q)
    ensures Inv(ResetStep(q))
  {
    ResetKeepsCells(q);
    AllFailedAt(q.error, q.waiters);
  }

  lemma NextKeepsInv(q: Queue, e: Event, flag: Flag)
    requires Inv(q) && Enabled(q, e)
    ensures Inv(Next(q, e, flag).0)
  {
    match e
    case Take(t, data, urgent) => TakeKeepsInv(q, t, data, urgent);
    case End(t) => SendStagesKeepInv(q, e, flag);
    case In(t) => SendStagesKeepInv(q, e, flag);
    case Link(t) => LinkKeepsInv(q, t);
    case Recv(t, limit, timeout, prio) =>
      assert q.pcs - {t} == q.pcs;
      RecvKeeps(q, t, limit, timeout, true, flag, prio);
    case Run(t, elapsed, prio) => RunKeepsInv(q, t, elapsed, flag, prio);
    case Out(t) => OutKeepsInv(q, t);
    case Return(t) => ReturnKeepsInv(q, t);
    case Expire(t) => ExpireKeepsInv(q, t);
    case Reset => ResetKeepsInv(q);
  }

  // ---- whole runs

  function Initial(msgSize: nat, cells: set<int>, content: map<int, seq<Byte>>, free: seq<int>): Queue
  {
    Queue(msgSize, cells, content, free, [], [], 0, [], {}, map[], map[], map[])
  }

  lemma InitialInv(msgSize: nat, cells: set<int>, content: map<int, seq<Byte>>, free: seq<int>)
    requires Basics.Distinct(free) && forall c :: c in free <==> c in cells
    requires content.Keys == cells && forall c :: c in cells ==> |content[c]| == msgSize
    ensures Inv(Initial(msgSize, cells, content, free))
  {
    var q := Initial(msgSize, cells, content, free);
    forall c | c in q.cells ensures InOnePlace(q.free, q.queue, q.pcs, c) { }
  }

  ghost predicate Runs(q: Queue, events: seq<Event>, flag: Flag)
    requires Inv(q)
    decreases |events|
  {
    events == [] ||
    (Enabled(q, events[0]) && (NextKeepsInv(q, events[0], flag); Runs(Next(q, events[0], flag).0, events[1..], flag)))
  }

  ghost function After(q: Queue, events: seq<Event>, flag: Flag): Queue
    requires Inv(q) && Runs(q, events, flag)
    decreases |events|
  {
    if events == [] then q
    else (NextKeepsInv(q, events[0], flag); After(Next(q, events[0], flag).0, events[1..], flag))
  }

  /** Under any interleaving the cells stay partitioned, the data intact and the wake-ups accounted for. */
  lemma {:induction false} EveryRunKeepsInv(q: Queue, events: seq<Event>, flag: Flag)
    requires Inv(q) && Runs(q, events, flag)
    ensures Inv(After(q, events, flag))
    decreases |events|
  {
    if events != [] {
      NextKeepsInv(q, events[0], flag);
      EveryRunKeepsInv(Next(q, events[0], flag).0, events[1..], flag);
    }
  }

  /** In every reachable state each cell is in exactly one place, the count is the queue's length, and
      waiting receivers are outnumbered neither by messages nor, with nobody mid-resume, by any. */
  lemma ReachableStates(q0: Queue, events: seq<Event>, flag: Flag)
    requires Inv(q0) && Runs(q0, events, flag)
    ensures var q := After(q0, events, flag);
      && (forall c :: c in q.cells ==> InOnePlace(q.free, q.queue, q.pcs, c))
      && q.entry == |q.queue|
      && (q.waiters != [] ==> q.entry <= |q.woken|)
      && (q.waiters != [] && q.woken == {} ==> q.queue == [])
  {
    EveryRunKeepsInv(q0, events, flag);
  }

  /** What a completed receive hands over: as many bytes as fit, beginning with the linked message. */
  lemma DeliveredIntact(q: Queue, t: Tid)
    requires Inv(q) && Enabled(q, Return(t))
    ensures var o := ReturnCell(q, t).1;
      && t in q.taken
      && |o.bytes| == Min(q.pcs[t].limit, q.msgSize)
      && forall i :: 0 <= i < |o.bytes| && i < |q.taken[t]| ==> o.bytes[i] == q.taken[t][i]
  {
    assert PcRight(q.content, q.msgSize, q.pcs[t]);
    assert TakenRight(q.content, q.pcs[t], t, q.taken);
  }

  // ---- the queue as one deque of messages

  datatype DequeOp = PushBack(m: seq<Byte>) | PushFront(m: seq<Byte>) | PopFront | Clear | Nothing

  /** The one point of a call at which it takes effect. */
  ghost function Effect(q: Queue, e: Event, flag: Flag): DequeOp
    requires Inv(q) && Enabled(q, e)
  {
    match e
    case Link(t) => if q.pcs[t].urgent then PushFront(q.pcs[t].data) else PushBack(q.pcs[t].data)
    case Reset => Clear
    case _ =>
      if (e.Recv? || e.Run?) && e.t in Next(q, e, flag).0.pcs && Next(q, e, flag).0.pcs[e.t].Receiving? then PopFront
      else Nothing
  }

  function Deque(messages: seq<seq<Byte>>, op: DequeOp): seq<seq<Byte>>
  {
    match op
    case PushBack(m) => messages + [m]
    case PushFront(m) => [m] + messages
    case PopFront => if messages == [] then [] else messages[1..]
    case Clear => []
    case Nothing => messages
  }

  /** Each step acts on the messages as its one deque operation, and a pop gives the receiver the front message. */
  lemma StepIsDequeOp(q: Queue, e: Event, flag: Flag)
    requires Inv(q) && Enabled(q, e)
    ensures Next(q, e, flag).0.messages == Deque(q.messages, Effect(q, e, flag))
    ensures Effect(q, e, flag).PopFront? ==>
      && q.messages != [] && e.t in Next(q, e, flag).0.taken && Next(q, e, flag).0.taken[e.t] == q.messages[0]
  {
    if e.Recv? { RecvIsPop(q, e.t, e.limit, e.timeout, true, flag, e.prio); }
    if e.Run? && q.error[e.t] == EOK {
      var t := e.t;
      RecvIsPop(q.(woken := q.woken - {t}), t, q.pcs[t].limit, Remaining(q.pcs[t].timeout, e.elapsed), false, flag, e.prio);
    }
  }

  lemma RecvIsPop(q: Queue, t: Tid, limit: nat, timeout: int, first: bool, flag: Flag, prio: map<Tid, int>)
    requires Ranked(q.waiters, prio) && t in prio && q.entry == |q.queue| == |q.messages|
    requires t in q.pcs ==> q.pcs[t].Waiting?
    ensures var r := RecvSection(q, t, limit, timeout, first, flag, prio).0;
      if t in r.pcs && r.pcs[t].Receiving? then
        q.messages != [] && r.messages == q.messages[1..] && t in r.taken && r.taken[t] == q.messages[0]
      else r.messages == q.messages
  {
  }

  // ---- from the unlinking to the return

  /** t is copying message m out of cell c, of which it wants up to limit bytes. */
  ghost predicate CopyingOut(q: Queue, t: Tid, m: seq<Byte>, c: int, limit: nat)
  {
    t in q.pcs && q.pcs[t].Receiving? && q.pcs[t].cell == c && q.pcs[t].limit == limit && t in q.taken && q.taken[t] == m
  }

  /** Nobody disturbs a receiver that holds its cell, until it returns. */
  lemma StillCopyingOut(q: Queue, e: Event, flag: Flag, t: Tid, m: seq<Byte>, c: int, limit: nat)
    requires Inv(q) && Enabled(q, e) && e != Return(t) && CopyingOut(q, t, m, c, limit)
    ensures CopyingOut(Next(q, e, flag).0, t, m, c, limit)
  {
    if e.Recv? { OthersKeepPc(q, e.t, e.limit, e.timeout, true, flag, e.prio, t); }
    if e.Run? && q.error[e.t] == EOK {
      OthersKeepPc(q.(woken := q.woken - {e.t}), e.t, q.pcs[e.t].limit, Remaining(q.pcs[e.t].timeout, e.elapsed), false, flag, e.prio, t);
    }
  }

  lemma OthersKeepPc(q: Queue, u: Tid, limit: nat, timeout: int, first: bool, flag: Flag, prio: map<Tid, int>, t: Tid)
    requires Ranked(q.waiters, prio) && u in prio && t != u && t in q.pcs && t in q.taken && q.entry == |q.queue| == |q.messages|
    requires u in q.pcs ==> q.pcs[u].Waiting?
    ensures var r := RecvSection(q, u, limit, timeout, first, flag, prio).0;
      t in r.pcs && r.pcs[t] == q.pcs[t] && t in r.taken && r.taken[t] == q.taken[t]
  {
  }

  lemma {:induction false} CopyingOutLasts(q: Queue, events: seq<Event>, flag: Flag, t: Tid, m: seq<Byte>, c: int, limit: nat)
    requires Inv(q) && Runs(q, events, flag) && Return(t) !in events && CopyingOut(q, t, m, c, limit)
    ensures CopyingOut(After(q, events, flag), t, m, c, limit)
    decreases |events|
  {
    if events != [] {
      assert events[0] in events && forall e :: e in events[1..] ==> e in events;
      NextKeepsInv(q, events[0], flag);
      StillCopyingOut(q, events[0], flag, t, m, c, limit);
      CopyingOutLasts(Next(q, events[0], flag).0, events[1..], flag, t, m, c, limit);
    }
  }

  /** The message that a thread unlinks is the one whose bytes its call returns, whatever the others do meanwhile. */
  lemma UnlinkedIsDelivered(q: Queue, e: Event, events: seq<Event>, flag: Flag, t: Tid)
    requires Inv(q) && Enabled(q, e) && Effect(q, e, flag).PopFront? && e.t == t
    requires (NextKeepsInv(q, e, flag); Runs(Next(q, e, flag).0, events, flag)) && Return(t) !in events
    requires (NextKeepsInv(q, e, flag); Enabled(After(Next(q, e, flag).0, events, flag), Return(t)))
    ensures var r := (NextKeepsInv(q, e, flag); After(Next(q, e, flag).0, events, flag));
      var limit := Next(q, e, flag).0.pcs[t].limit;
      && q.messages != [] && t in r.pcs && r.pcs[t].Receiving?
      && var o := ReturnCell(r, t).1;
         && |o.bytes| == Min(limit, q.msgSize)
         && forall i :: 0 <= i < |o.bytes| && i < |q.messages[0]| ==> o.bytes[i] == q.messages[0][i]
  {
    NextKeepsInv(q, e, flag);
    StepIsDequeOp(q, e, flag);
    var n := Next(q, e, flag).0;
    CopyingOutLasts(n, events, flag, t, q.messages[0], n.pcs[t].cell, n.pcs[t].limit);
    EveryRunKeepsInv(n, events, flag);
    SizeStays(n, events, flag);
    DeliveredIntact(After(n, events, flag), t);
  }

  lemma {:induction false} SizeStays(q: Queue, events: seq<Event>, flag: Flag)
    requires Inv(q) && Runs(q, events, flag)
    ensures After(q, events, flag).msgSize == q.msgSize
    decreases |events|
  {
    if events != [] {
      NextKeepsInv(q, events[0], flag);
      SizeStays(Next(q, events[0], flag).0, events[1..], flag);
    }
  }

  // ---- the order of delivery

  /** The messages linked, and those unlinked, in the order of the run. */
  ghost function Linked(q: Queue, events: seq<Event>, flag: Flag): seq<seq<Byte>>
    requires Inv(q) && Runs(q, events, flag)
    decreases |events|
  {
    if events == [] then []
    else
      NextKeepsInv(q, events[0], flag);
      var op := Effect(q, events[0], flag);
      (if op.PushBack? || op.PushFront? then [op.m] else []) + Linked(Next(q, events[0], flag).0, events[1..], flag)
  }

  ghost function Unlinked(q: Queue, events: seq<Event>, flag: Flag): seq<seq<Byte>>
    requires Inv(q) && Runs(q, events, flag)
    decreases |events|
  {
    if events == [] then []
    else
      NextKeepsInv(q, events[0], flag);
      (if Effect(q, events[0], flag).PopFront? && q.messages != [] then [q.messages[0]] else [])
        + Unlinked(Next(q, events[0], flag).0, events[1..], flag)
  }

  ghost predicate Plain(q: Queue, events: seq<Event>, flag: Flag)
    requires Inv(q) && Runs(q, events, flag)
    decreases |events|
  {
    events == [] ||
    (NextKeepsInv(q, events[0], flag);
     var op := Effect(q, events[0], flag);
     !op.PushFront? && !op.Clear? && Plain(Next(q, events[0], flag).0, events[1..], flag))
  }

  lemma Shuffle(m: seq<seq<Byte>>, op: DequeOp, links: seq<seq<Byte>>, pops: seq<seq<Byte>>, rest: seq<seq<Byte>>)
    requires !op.PushFront? && !op.Clear? && (op.PopFront? ==> m != [])
    requires Deque(m, op) + links == pops + rest
    ensures m + ((if op.PushBack? then [op.m] else []) + links) == ((if op.PopFront? then [m[0]] else []) + pops) + rest
  {
    if op.PopFront? {
      assert m == [m[0]] + m[1..];
      assert m + ([] + links) == [m[0]] + (m[1..] + links);
    } else if op.PushBack? {
      assert m + ([op.m] + links) == (m + [op.m]) + links;
      assert [] + pops == pops;
    } else {
      assert [] + links == links && [] + pops == pops;
    }
  }

  /** Without urgent sends and resets, messages leave in the order in which they were linked. */
  lemma {:induction false} LinkOrderIsDeliveryOrder(q: Queue, events: seq<Event>, flag: Flag)
    requires Inv(q) && Runs(q, events, flag) && Plain(q, events, flag)
    ensures q.messages + Linked(q, events, flag) == Unlinked(q, events, flag) + After(q, events, flag).messages
    decreases |events|
  {
    if events != [] {
      var e := events[0];
      NextKeepsInv(q, e, flag);
      StepIsDequeOp(q, e, flag);
      var r := Next(q, e, flag).0;
      LinkOrderIsDeliveryOrder(r, events[1..], flag);
      Shuffle(q.messages, Effect(q, e, flag), Linked(r, events[1..], flag), Unlinked(r, events[1..], flag),
        After(r, events[1..], flag).messages);
    }
  }
}