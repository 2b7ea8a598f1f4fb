/** The mailbox protocol as a state machine. Every section that runs with interrupts disabled
    is one step; threads, timer expiry and resets interleave between the steps in any order. */
module MailboxModel {
  import opened Basics
  import opened Ring
  import opened WaitList

  /** A call that has suspended its thread. A negative timeout waits forever. */
  datatype Call = SendCall(value: int, timeout: int) | RecvCall(timeout: int)

  datatype Outcome = Blocked | Failed(error: int) | Sent | Received(value: int)

  /** receivers and senders are the two wait lists. A thread in wokenR or wokenS was resumed
      without an error and did not run since. sent and received list the mails since the last reset. */
  datatype Box = Box(
    size: nat, pool: seq<int>, inOff: int, outOff: int, entry: int,
    receivers: seq<Tid>, senders: seq<Tid>, wokenR: set<Tid>, wokenS: set<Tid>,
    calls: map<Tid, Call>, error: map<Tid, int>,
    sent: seq<int>, received: seq<int>)

  function Slot(offset: int, i: int, size: nat): int
  {
    if offset + i < size then offset + i else offset + i - size
  }

  // ---- the steps

  function Advance(offset: int, size: nat): int
  {
    if offset + 1 >= size then 0 else offset + 1
  }

  function PutStep(b: Box, v: int): Box
    requires 0 <= b.inOff < |b.pool|
  {
    b.(pool := b.pool[b.inOff := v], inOff := Advance(b.inOff, b.size), entry := b.entry + 1, sent := b.sent + [v])
  }

  function TakeStep(b: Box): Box
    requires 0 <= b.outOff < |b.pool|
  {
    b.(outOff := Advance(b.outOff, b.size), entry := b.entry - 1, received := b.received + [b.pool[b.outOff]])
  }

  function WakeReceiver(b: Box): Box
  {
    if b.receivers == [] then b else b.(receivers := b.receivers[1..], wokenR := b.wokenR + {b.receivers[0]})
  }

  function WakeSender(b: Box): Box
  {
    if b.senders == [] then b else b.(senders := b.senders[1..], wokenS := b.wokenS + {b.senders[0]})
  }

  /** A thread that tries again clears its error number first. */
  function Retrying(b: Box, t: Tid, first: bool): Box
  {
    if first then b else b.(error := b.error[t := EOK])
  }

  /** One pass of rt_mb_send_wait from the full test on. first: the first pass of the call. */
  ghost function SendSection(b: Box, t: Tid, v: int, timeout: int, first: bool, flag: Flag, prio: map<Tid, int>): (Box, Outcome)
    requires 0 <= b.inOff < |b.pool| && Ranked(b.senders, prio) && t in prio
  {
    if b.entry == b.size then
      if timeout == 0 then (Retrying(b, t, first).(calls := b.calls - {t}), Failed(EFULL))
      else (b.(error := b.error[t := EOK], senders := Enlisted(b.senders, t, flag, prio), calls := b.calls[t := SendCall(v, timeout)]), Blocked)
    else
      (WakeReceiver(PutStep(b.(calls := b.calls - {t}), v)), Sent)
  }

  /** One pass of rt_mb_recv from the empty test on. */
  ghost function RecvSection(b: Box, t: Tid, timeout: int, first: bool, flag: Flag, prio: map<Tid, int>): (Box, Outcome)
    requires 0 <= b.outOff < |b.pool| && Ranked(b.receivers, prio) && t in prio
  {
    if b.entry == 0 then
      if timeout == 0 then
        ((if first then b else b.(error := b.error[t := ETIMEOUT])).(calls := b.calls - {t}), Failed(ETIMEOUT))
      else (b.(error := b.error[t := EOK], receivers := Enlisted(b.receivers, t, flag, prio), calls := b.calls[t := RecvCall(timeout)]), Blocked)
    else
      (WakeSender(TakeStep(b.(calls := b.calls - {t}))), Received(b.pool[b.outOff]))
  }

  /** A resumed thread runs again: it reports its error, or takes another pass. */
  ghost function RunSection(b: Box, t: Tid, elapsed: nat, flag: Flag, prio: map<Tid, int>): (Box, Outcome)
    requires 0 <= b.inOff < |b.pool| && 0 <= b.outOff < |b.pool|
    requires Ranked(b.senders, prio) && Ranked(b.receivers, prio) && t in prio && t in b.calls && t in b.error
  {
    if b.error[t] != EOK then (b.(calls := b.calls - {t}), Failed(b.error[t]))
    else
      match b.calls[t]
      case SendCall(v, timeout) => SendSection(b.(wokenS := b.wokenS - {t}), t, v, Remaining(timeout, elapsed), false, flag, prio)
      case RecvCall(timeout) => RecvSection(b.(wokenR := b.wokenR - {t}), t, Remaining(timeout, elapsed), false, flag, prio)
  }

  /** The timer of a suspended thread expires. */
  function ExpireStep(b: Box, t: Tid): Box
  {
    b.(error := b.error[t := ETIMEOUT], receivers := Dropped(b.receivers, t), senders := Dropped(b.senders, t))
  }

  /** rt_mb_control with the reset command. */
  function ResetStep(b: Box): Box
  {
    b.(error := AllFailed(AllFailed(b.error, b.receivers), b.senders), receivers := [], senders := [],
       entry := 0, inOff := 0, outOff := 0, sent := [], received := [])
  }

  datatype Event =
    | Send(t: Tid, value: int, timeout: int, prio: map<Tid, int>)
    | Recv(t: Tid, timeout: int, prio: map<Tid, int>)
    | Run(t: Tid, elapsed: nat, prio: map<Tid, int>)
    | Expire(t: Tid)
    | Reset

  /** A thread starts a call only when it has none pending, runs only when it is not suspended,
      and its timer only runs while it is suspended with a positive timeout. */
  ghost predicate Enabled(b: Box, e: Event)
  {
    match e
    case Send(t, _, _, prio) => t !in b.calls && t in prio && Ranked(b.senders, prio)
    case Recv(t, _, prio) => t !in b.calls && t in prio && Ranked(b.receivers, prio)
    case Run(t, _, prio) =>
      && t in b.calls && t !in b.receivers && t !in b.senders
      && t in prio && Ranked(b.senders, prio) && Ranked(b.receivers, prio)
    case Expire(t) => (t in b.receivers || t in b.senders) && t in b.calls && b.calls[t].timeout > 0
    case Reset => true
  }

  ghost function Next(b: Box, e: Event, flag: Flag): (Box, Outcome)
    requires Inv(b) && Enabled(b, e)
  {
    match e
    case Send(t, v, timeout, prio) => SendSection(b, t, v, timeout, true, flag, prio)
    case Recv(t, timeout, prio) => RecvSection(b, t, timeout, true, flag, prio)
    case Run(t, elapsed, prio) => RunSection(b, t, elapsed, flag, prio)
    case Expire(t) => (ExpireStep(b, t), Blocked)
    case Reset => (ResetStep(b), Blocked)
  }

  // ---- what every step keeps

  /** Mail i behind the first skip ones lies i slots behind outOff. */
  ghost predicate SlotHolds(pool: seq<int>, outOff: int, size: nat, sent: seq<int>, skip: nat, i: nat)
    requires skip + i < |sent|
  {
    var k := Slot(outOff, i, size);
    0 <= k < |pool| && pool[k] == sent[skip + i]
  }

  /** The ring holds the mails sent and not yet received, oldest at outOff. */
  ghost predicate RingInv(b: Box)
  {
    && b.size > 0 && |b.pool| == b.size && 0 <= b.entry <= b.size
    && 0 <= b.outOff < b.size && b.inOff == Slot(b.outOff, b.entry, b.size)
    && b.received <= b.sent && |b.sent| == |b.received| + b.entry
    && forall i :: 0 <= i < b.entry ==> SlotHolds(b.pool, b.outOff, b.size, b.sent, |b.received|, i)
  }

  ghost predicate ThreadInv(b: Box)
  {
    && Distinct(b.receivers) && Distinct(b.senders)
    && (forall t :: t in b.receivers || t in b.wokenR ==> t in b.calls && b.calls[t].RecvCall?)
    && (forall t :: t in b.senders || t in b.wokenS ==> t in b.calls && b.calls[t].SendCall?)
    && (forall t :: t in b.receivers ==> t !in b.wokenR)
    && (forall t :: t in b.senders ==> t !in b.wokenS)
    && (forall t :: t in b.calls ==> t in b.error)
    && (forall t :: t in b.calls && b.error[t] == EOK <==>
         t in b.receivers || t in b.senders || t in b.wokenR || t in b.wokenS)
  }

  /** No wake-up is lost: while receivers wait, every stored mail has a resumed receiver of its own on
      the way to it; while senders wait, every free slot has a resumed sender of its own. */
  ghost predicate WakeInv(b: Box)
  {
    && (b.receivers != [] ==> b.entry <= |b.wokenR|)
    && (b.senders != [] ==> b.size - b.entry <= |b.wokenS|)
  }

  ghost predicate Inv(b: Box)
  {
    RingInv(b) && ThreadInv(b) && WakeInv(b)
  }

  function Initial(size: nat, pool: seq<int>): Box
  {
    Box(size, pool, 0, 0, 0, [], [], {}, {}, map[], map[], [], [])
  }

  lemma InitialInv(size: nat, pool: seq<int>)
    requires size > 0 && |pool| == size
    ensures Inv(Initial(size, pool))
  {
  }

  lemma PutKeepsRing(b: Box, v: int)
    requires RingInv(b) && b.entry < b.size
    ensures RingInv(PutStep(b, v))
  {
    var c := PutStep(b, v);
    forall i | 0 <= i < c.entry
      ensures SlotHolds(c.pool, c.outOff, c.size, c.sent, |c.received|, i)
    {
      if i < b.entry { assert SlotHolds(b.pool, b.outOff, b.size, b.sent, |b.received|, i); }
    }
  }

  /** The mail taken is the oldest one not yet received. */
  lemma TakeKeepsRing(b: Box)
    requires RingInv(b) && b.entry > 0
    ensures RingInv(TakeStep(b))
    ensures b.pool[b.outOff] == b.sent[|b.received|]
  {
    var c := TakeStep(b);
    assert SlotHolds(b.pool, b.outOff, b.size, b.sent, |b.received|, 0);
    forall i | 0 <= i < c.entry
      ensures SlotHolds(c.pool, c.outOff, c.size, c.sent, |c.received|, i)
    {
      assert SlotHolds(b.pool, b.outOff, b.size, b.sent, |b.received|, i + 1);
    }
  }

  /** The thread facts a pass of t relies on: t is in no list. */
  ghost predicate Running(b: Box, t: Tid)
  {
    && ThreadInv(b.(calls := b.calls - {t}))
    && t !in b.receivers && t !in b.senders && t !in b.wokenR && t !in b.wokenS
  }

  lemma WakeReceiverKeeps(b: Box)
    requires ThreadInv(b)
    ensures ThreadInv(WakeReceiver(b))
    ensures b.receivers != [] ==> |WakeReceiver(b).wokenR| == |b.wokenR| + 1
  {
    if b.receivers != [] {
      PopDistinct(b.receivers);
      assert b.receivers[0] in b.receivers;
    }
  }

  lemma WakeSenderKeeps(b: Box)
    requires ThreadInv(b)
    ensures ThreadInv(WakeSender(b))
    ensures b.senders != [] ==> |WakeSender(b).wokenS| == |b.wokenS| + 1
  {
    if b.senders != [] {
      PopDistinct(b.senders);
      assert b.senders[0] in b.senders;
    }
  }

  lemma SenderBlocks(b: Box, t: Tid, v: int, timeout: int, flag: Flag, prio: map<Tid, int>)
    requires Running(b, t) && t in prio && Ranked(b.senders, prio)
    ensures ThreadInv(b.(error := b.error[t := EOK], senders := Enlisted(b.senders, t, flag, prio), calls := b.calls[t := SendCall(v, timeout)]))
  {
    EnlistedDistinct(b.senders, t, flag, prio);
  }

  lemma ReceiverBlocks(b: Box, t: Tid, timeout: int, flag: Flag, prio: map<Tid, int>)
    requires Running(b, t) && t in prio && Ranked(b.receivers, prio)
    ensures ThreadInv(b.(error := b.error[t := EOK], receivers := Enlisted(b.receivers, t, flag, prio), calls := b.calls[t := RecvCall(timeout)]))
  {
    EnlistedDistinct(b.receivers, t, flag, prio);
  }

  /** Before a pass of a resumed thread its own place among the resumed ones still counts. */
  lemma SendKeeps(b: Box, t: Tid, v: int, timeout: int, first: bool, flag: Flag, prio: map<Tid, int>)
    requires RingInv(b) && Running(b, t) && t in prio && Ranked(b.senders, prio)
    requires b.receivers != [] ==> b.entry <= |b.wokenR|
    requires b.senders != [] ==> b.size - b.entry <= |b.wokenS| + 1
    ensures Inv(SendSection(b, t, v, timeout, first, flag, prio).0)
  {
    var c := b.(calls := b.calls - {t});
    if b.entry == b.size {
      if timeout != 0 { SenderBlocks(b, t, v, timeout, flag, prio); }
    } else {
      PutKeepsRing(c, v);
      WakeReceiverKeeps(PutStep(c, v));
    }
  }

  lemma RecvKeeps(b: Box, t: Tid, timeout: int, first: bool, flag: Flag, prio: map<Tid, int>)
    requires RingInv(b) && Running(b, t) && t in prio && Ranked(b.receivers, prio)
    requires b.receivers != [] ==> b.entry <= |b.wokenR| + 1
    requires b.senders != [] ==> b.size - b.entry <= |b.wokenS|
    ensures Inv(RecvSection(b, t, timeout, first, flag, prio).0)
  {
    var c := b.(calls := b.calls - {t});
    if b.entry == 0 {
      if timeout != 0 { ReceiverBlocks(b, t, timeout, flag, prio); }
    } else {
      TakeKeepsRing(c);
      WakeSenderKeeps(TakeStep(c));
    }
  }

  lemma DropOne(s: set<Tid>, t: Tid)
    ensures t in s ==> |s - {t}| == |s| - 1
    ensures t !in s ==> s - {t} == s
  {
  }

  lemma RunKeeps(b: Box, t: Tid, elapsed: nat, flag: Flag, prio: map<Tid, int>)
    requires Inv(b) && Enabled(b, Run(t, elapsed, prio))
    ensures Inv(RunSection(b, t, elapsed, flag, prio).0)
  {
    if b.error[t] == EOK {
      match b.calls[t]
      case SendCall(v, timeout) =>
        DropOne(b.wokenS, t);
        SendKeeps(b.(wokenS := b.wokenS - {t}), t, v, Remaining(timeout, elapsed), false, flag, prio);
      case RecvCall(timeout) =>
        DropOne(b.wokenR, t);
        RecvKeeps(b.(wokenR := b.wokenR - {t}), t, Remaining(timeout, elapsed), false, flag, prio);
    }
  }

  lemma ExpireKeeps(b: Box, t: Tid)
    requires Inv(b) && Enabled(b, Expire(t))
    ensures Inv(ExpireStep(b, t))
  {
    DroppedMembers(b.receivers, t);
    DroppedMembers(b.senders, t);
    var c := ExpireStep(b, t);
    assert c.receivers != [] ==> c.receivers[0] in b.receivers;
    assert c.senders != [] ==> c.senders[0] in b.senders;
  }

  lemma ResetKeeps(b: Box)
    requires Inv(b)
    ensures Inv(ResetStep(b))
  {
    AllFailedAt(b.error, b.receivers);
    AllFailedAt(AllFailed(b.error, b.receivers), b.senders);
  }

  lemma DropAbsentCall(b: Box, t: Tid)
    requires t !in b.calls
    ensures b.(calls := b.calls - {t}) == b
  {
    assert b.calls - {t} == b.calls;
  }

  lemma NextKeepsInv(b: Box, e: Event, flag: Flag)
    requires Inv(b) && Enabled(b, e)
    ensures Inv(Next(b, e, flag).0)
  {
    match e
    case Send(t, v, timeout, prio) =>
      DropAbsentCall(b, t);
      SendKeeps(b, t, v, timeout, true, flag, prio);
    case Recv(t, timeout, prio) =>
      DropAbsentCall(b, t);
      RecvKeeps(b, t, timeout, true, flag, prio);
    case Run(t, elapsed, prio) => RunKeeps(b, t, elapsed, flag, prio);
    case Expire(t) => ExpireKeeps(b, t);
    case Reset => ResetKeeps(b);
  }

  // ---- whole runs

  ghost predicate Runs(b: Box, events: seq<Event>, flag: Flag)
    requires Inv(b)
    decreases |events|
  {
    events == [] ||
    (Enabled(b, events[0]) && (NextKeepsInv(b, events[0], flag); Runs(Next(b, events[0], flag).0, events[1..], flag)))
  }

  ghost function After(b: Box, events: seq<Event>, flag: Flag): Box
    requires Inv(b) && Runs(b, events, flag)
    decreases |events|
  {
    if events == [] then b
    else (NextKeepsInv(b, events[0], flag); After(Next(b, events[0], flag).0, events[1..], flag))
  }

  /** Every reachable state keeps the ring, the thread bookkeeping and the wake-up accounting. */
  lemma {:induction false} EveryRunKeepsInv(b: Box, events: seq<Event>, flag: Flag)
    requires Inv(b) && Runs(b, events, flag)
    ensures Inv(After(b, events, flag))
    decreases |events|
  {
    if events != [] {
      NextKeepsInv(b, events[0], flag);
      EveryRunKeepsInv(Next(b, events[0], flag).0, events[1..], flag);
    }
  }

  /** With nobody on the way after a wake-up, receivers wait only on an empty mailbox and senders only
      on a full one, so never both at once. */
  lemma WaitersAreJustified(size: nat, pool: seq<int>, events: seq<Event>, flag: Flag)
    requires size > 0 && |pool| == size && (InitialInv(size, pool); Runs(Initial(size, pool), events, flag))
    ensures var b := (InitialInv(size, pool); After(Initial(size, pool), events, flag));
      && (b.receivers != [] ==> b.entry <= |b.wokenR|)
      && (b.senders != [] ==> b.size - b.entry <= |b.wokenS|)
      && (b.wokenR == {} && b.receivers != [] ==> b.entry == 0)
      && (b.wokenS == {} && b.senders != [] ==> b.entry == b.size)
      && (b.wokenR == {} && b.wokenS == {} ==> b.receivers == [] || b.senders == [])
  {
    InitialInv(size, pool);
    EveryRunKeepsInv(Initial(size, pool), events, flag);
    SizeStays(Initial(size, pool), events, flag);
  }

  lemma {:induction false} SizeStays(b: Box, events: seq<Event>, flag: Flag)
    requires Inv(b) && Runs(b, events, flag)
    ensures After(b, events, flag).size == b.size
    decreases |events|
  {
    if events != [] {
      NextKeepsInv(b, events[0], flag);
      SizeStays(Next(b, events[0], flag).0, events[1..], flag);
    }
  }

  /** The mails handed out since the last reset, in the order of the run. */
  ghost function Deliveries(b: Box, events: seq<Event>, flag: Flag): seq<int>
    requires Inv(b) && Runs(b, events, flag)
    decreases |events|
  {
    if events == [] then []
    else
      NextKeepsInv(b, events[0], flag);
      var (c, o) := Next(b, events[0], flag);
      (if o.Received? then [o.value] else []) + Deliveries(c, events[1..], flag)
  }

  /** The mails accepted, in the order of the run. */
  ghost function Acceptances(b: Box, events: seq<Event>, flag: Flag): seq<int>
    requires Inv(b) && Runs(b, events, flag)
    decreases |events|
  {
    if events == [] then []
    else
      NextKeepsInv(b, events[0], flag);
      var (c, o) := Next(b, events[0], flag);
      (if o.Sent? then [MailOf(b, events[0])] else []) + Acceptances(c, events[1..], flag)
  }

  ghost function MailOf(b: Box, e: Event): int
  {
    if e.Send? then e.value
    else if e.Run? && e.t in b.calls && b.calls[e.t].SendCall? then b.calls[e.t].value else 0
  }

  lemma StepLogs(b: Box, e: Event, flag: Flag)
    requires Inv(b) && Enabled(b, e) && !e.Reset?
    ensures var (c, o) := Next(b, e, flag);
      && c.sent == b.sent + (if o.Sent? then [MailOf(b, e)] else [])
      && c.received == b.received + (if o.Received? then [o.value] else [])
  {
  }

  lemma Append(r: seq<int>, x: seq<int>, y: seq<int>)
    ensures (r + x) + y == r + (x + y)
  {
  }

  lemma {:induction false} LogsAreRuns(b: Box, events: seq<Event>, flag: Flag)
    requires Inv(b) && Runs(b, events, flag) && Reset !in events
    ensures After(b, events, flag).sent == b.sent + Acceptances(b, events, flag)
    ensures After(b, events, flag).received == b.received + Deliveries(b, events, flag)
    decreases |events|
  {
    if events != [] {
      var e := events[0];
      NextKeepsInv(b, e, flag);
      assert e in events;
      StepLogs(b, e, flag);
      var (c, o) := Next(b, e, flag);
      LogsAreRuns(c, events[1..], flag);
      Append(b.sent, if o.Sent? then [MailOf(b, e)] else [], Acceptances(c, events[1..], flag));
      Append(b.received, if o.Received? then [o.value] else [], Deliveries(c, events[1..], flag));
    }
  }

  /** First in, first out: from an empty mailbox, what any number of receivers got is a prefix of what
      any number of senders sent, and the rest is what is still stored. */
  lemma FirstInFirstOut(b: Box, events: seq<Event>, flag: Flag)
    requires Inv(b) && b.entry == 0 && Runs(b, events, flag) && Reset !in events
    ensures Deliveries(b, events, flag) <= Acceptances(b, events, flag)
    ensures |Acceptances(b, events, flag)| - |Deliveries(b, events, flag)| == After(b, events, flag).entry
  {
    EveryRunKeepsInv(b, events, flag);
    LogsAreRuns(b, events, flag);
    assert b.sent == b.received;
    CommonFront(b.sent, Deliveries(b, events, flag), Acceptances(b, events, flag));
  }

  lemma CommonFront(r: seq<int>, d: seq<int>, a: seq<int>)
    requires r + d <= r + a
    ensures d <= a
  {
    forall i | 0 <= i < |d| ensures d[i] == a[i] {
      assert (r + d)[|r| + i] == (r + a)[|r| + i];
    }
  }
}
