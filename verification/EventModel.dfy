/** The event flags as a state machine: 32 flags and a list of threads, each waiting for all or for
    any of the flags it is interested in, possibly clearing them as it is woken. */
module EventModel {
  import opened Basics
  import opened Ring
  import opened WaitList

  /** The 32 flags as the set of the bit numbers that are up. */
  type Flags = set<nat>

  /** The option bits RT_EVENT_FLAG_AND, RT_EVENT_FLAG_OR and RT_EVENT_FLAG_CLEAR. */
  datatype Option = Option(all: bool, any: bool, clear: bool)

  datatype Outcome = Pending | Failed(error: int) | Done | Received(flags: Flags)

  /** want and option are what each pending call asked for; eventSet is the field of the thread, which
      a wake-up narrows; woken threads were resumed without an error and seen tells with which flags. */
  datatype Event = Event(
    flags: Flags, waiters: seq<Tid>, eventSet: map<Tid, Flags>, option: map<Tid, Option>, error: map<Tid, int>,
    timed: set<Tid>, woken: set<Tid>, pending: set<Tid>, want: map<Tid, Flags>, seen: map<Tid, Flags>)

  /** The waiting condition of rt_event_send and rt_event_recv: AND wins when both bits are given. */
  predicate Satisfied(want: Flags, o: Option, flags: Flags)
  {
    if o.all then want <= flags else o.any && want * flags != {}
  }

  /** What is recorded for a woken thread, and what is left of the flags. */
  function Recorded(want: Flags, o: Option, flags: Flags): Flags
  {
    if o.all then want else want * flags
  }

  function Left(want: Flags, o: Option, flags: Flags): Flags
  {
    if o.clear then flags - Recorded(want, o, flags) else flags
  }

  ghost predicate Known(l: seq<Tid>, eventSet: map<Tid, Flags>, option: map<Tid, Option>)
  {
    forall i :: 0 <= i < |l| ==> l[i] in eventSet && l[i] in option
  }

  datatype Scan = Scan(flags: Flags, waiters: seq<Tid>, eventSet: map<Tid, Flags>, woken: set<Tid>, seen: map<Tid, Flags>)

  /** The scan of rt_event_send: each waiter is judged by the flags its predecessors left. */
  function Scanned(l: seq<Tid>, flags: Flags, eventSet: map<Tid, Flags>, option: map<Tid, Option>): (s: Scan)
    requires Known(l, eventSet, option)
    decreases |l|
  {
    if l == [] then Scan(flags, [], eventSet, {}, map[])
    else
      var t := l[0];
      var w, o := eventSet[t], option[t];
      if Satisfied(w, o, flags) then
        var r := Scanned(l[1..], Left(w, o, flags), eventSet[t := Recorded(w, o, flags)], option);
        r.(woken := r.woken + {t}, seen := r.seen[t := flags])
      else
        var r := Scanned(l[1..], flags, eventSet, option);
        r.(waiters := [t] + r.waiters)
  }

  /** Fewer flags satisfy fewer waiters. */
  lemma FewerFlags(want: Flags, o: Option, flags: Flags, fewer: Flags)
    requires fewer <= flags && Satisfied(want, o, fewer)
    ensures Satisfied(want, o, flags)
  {
    if !o.all {
      var i :| i in want * fewer;
      assert i in want * flags;
    }
  }

  /** After a scan no remaining waiter is satisfied, even though waiters cleared flags in the middle of
      it; the woken ones were satisfied by the flags they saw, and everybody else keeps its request. */
  lemma {:induction false} ScanSettles(l: seq<Tid>, flags: Flags, eventSet: map<Tid, Flags>, option: map<Tid, Option>)
    requires Known(l, eventSet, option) && Distinct(l)
    ensures var s := Scanned(l, flags, eventSet, option);
      && s.flags <= flags
      && Distinct(s.waiters)
      && (forall t :: t in l <==> t in s.waiters || t in s.woken)
      && (forall t :: t in s.waiters ==> t !in s.woken)
      && (forall t :: t in s.eventSet <==> t in eventSet)
      && (forall t :: t in eventSet && t !in s.woken ==> s.eventSet[t] == eventSet[t])
      && (forall t :: t in s.waiters ==> !Satisfied(eventSet[t], option[t], s.flags))
      && s.seen.Keys == s.woken
      && (forall t :: t in s.woken ==> Satisfied(eventSet[t], option[t], s.seen[t]) && s.seen[t] <= flags)
      && (forall t :: t in s.woken ==> s.eventSet[t] == Recorded(eventSet[t], option[t], s.seen[t]))
    decreases |l|
  {
    if l != [] {
      var t := l[0];
      var w, o := eventSet[t], option[t];
      PopDistinct(l);
      if Satisfied(w, o, flags) {
        var left := Left(w, o, flags);
        ScanSettles(l[1..], left, eventSet[t := Recorded(w, o, flags)], option);
        var r := Scanned(l[1..], left, eventSet[t := Recorded(w, o, flags)], option);
      } else {
        ScanSettles(l[1..], flags, eventSet, option);
        var r := Scanned(l[1..], flags, eventSet, option);
        if Satisfied(w, o, r.flags) { FewerFlags(w, o, flags, r.flags); }
      }
    }
  }

  /** When no waiter clears flags, a send wakes exactly the waiters that its flags satisfy. */
  lemma {:induction false} WithoutClearExactlyTheSatisfied(l: seq<Tid>, flags: Flags, eventSet: map<Tid, Flags>, option: map<Tid, Option>)
    requires Known(l, eventSet, option) && Distinct(l) && forall t :: t in l ==> !option[t].clear
    ensures var s := Scanned(l, flags, eventSet, option);
      s.flags == flags && s.woken == set t | t in l && Satisfied(eventSet[t], option[t], flags)
    decreases |l|
  {
    if l != [] {
      var t := l[0];
      var w, o := eventSet[t], option[t];
      PopDistinct(l);
      WithoutClearExactlyTheSatisfied(l[1..], flags, eventSet, option);
      if Satisfied(w, o, flags) {
        WithoutClearExactlyTheSatisfied(l[1..], flags, eventSet[t := Recorded(w, o, flags)], option);
      }
    }
  }

  // ---- the steps

  /** rt_event_send. */
  function SendStep(e: Event, set_: Flags): (Event, Outcome)
    requires Known(e.waiters, e.eventSet, e.option)
  {
    if set_ == {} then (e, Failed(ERROR))
    else
      var s := Scanned(e.waiters, e.flags + set_, e.eventSet, e.option);
      (e.(flags := s.flags, waiters := s.waiters, eventSet := s.eventSet, woken := e.woken + s.woken, seen := e.seen + s.seen), Done)
  }

  ghost function WaitStep(e: Event, t: Tid, want: Flags, o: Option, timeout: int, flag: Flag, prio: map<Tid, int>): Event
    requires Ranked(e.waiters, prio) && t in prio
  {
    e.(eventSet := e.eventSet[t := want], option := e.option[t := o], want := e.want[t := want],
       waiters := Enlisted(e.waiters, t, flag, prio), pending := e.pending + {t},
       timed := if timeout > 0 then e.timed + {t} else e.timed - {t})
  }

  /** rt_event_recv up to its return or suspension. */
  ghost function RecvStep(e: Event, t: Tid, want: Flags, o: Option, timeout: int, flag: Flag, prio: map<Tid, int>): (Event, Outcome)
    requires Ranked(e.waiters, prio) && t in prio
  {
    if want == {} then (e, Failed(ERROR))
    else
      var c := e.(error := e.error[t := EOK]);
      if Satisfied(want, o, e.flags) then
        (c.(flags := if o.clear then e.flags - want else e.flags), Received(e.flags * want))
      else if timeout == 0 then (c.(error := c.error[t := ETIMEOUT]), Failed(ETIMEOUT))
      else (WaitStep(c, t, want, o, timeout, flag, prio), Pending)
  }

  /** A resumed thread runs to the end of its call. */
  function RunStep(e: Event, t: Tid): (Event, Outcome)
    requires t in e.error && t in e.eventSet
  {
    var c := e.(pending := e.pending - {t}, woken := e.woken - {t});
    (c, if e.error[t] != EOK then Failed(e.error[t]) else Received(e.eventSet[t]))
  }

  function ExpireStep(e: Event, t: Tid): Event
  {
    e.(error := e.error[t := ETIMEOUT], waiters := Dropped(e.waiters, t))
  }

  /** rt_event_control with the reset command. */
  function ResetStep(e: Event): Event
  {
    e.(error := AllFailed(e.error, e.waiters), waiters := [], flags := {})
  }

  datatype Step =
    | Send(flags: Flags)
    | Recv(t: Tid, want: Flags, o: Option, timeout: int, prio: map<Tid, int>)
    | Run(t: Tid)
    | Expire(t: Tid)
    | Reset

  /** A receive names AND or OR, as the code asserts. */
  ghost predicate Enabled(e: Event, s: Step)
  {
    match s
    case Send(_) => true
    case Recv(t, _, o, _, prio) => t !in e.pending && (o.all || o.any) && t in prio && Ranked(e.waiters, prio)
    case Run(t) => t in e.pending && t !in e.waiters
    case Expire(t) => t in e.waiters && t in e.timed
    case Reset => true
  }

  ghost function Next(e: Event, s: Step, flag: Flag): (Event, Outcome)
    requires Inv(e) && Enabled(e, s)
  {
    match s
    case Send(flags) => KnownWaiters(e); SendStep(e, flags)
    case Recv(t, want, o, timeout, prio) => RecvStep(e, t, want, o, timeout, flag, prio)
    case Run(t) => RunStep(e, t)
    case Expire(t) => (ExpireStep(e, t), Pending)
    case Reset => (ResetStep(e), Pending)
  }

  // ---- what every step keeps

  ghost predicate WaitInv(waiters: seq<Tid>, woken: set<Tid>, pending: set<Tid>, eventSet: map<Tid, Flags>,
    option: map<Tid, Option>, want: map<Tid, Flags>, error: map<Tid, int>)
  {
    && Distinct(waiters)
    && (forall t :: t in waiters ==> t in pending)
    && (forall t :: t in woken ==> t in pending)
    && (forall t :: t in waiters ==> t !in woken)
    && (forall t :: t in pending ==> t in eventSet && t in option && t in want && t in error)
    && (forall t :: t in waiters ==> eventSet[t] == want[t])
    && (forall t :: t in pending && error[t] == EOK <==> t in waiters || t in woken)
  }

  /** No suspended thread's condition holds. */
  ghost predicate Quiescent(e: Event)
  {
    forall t :: t in e.waiters ==> t in e.want && t in e.option && !Satisfied(e.want[t], e.option[t], e.flags)
  }

  /** A woken thread was satisfied by the flags it saw, and that is what it will report. */
  ghost predicate WokenRight(e: Event)
  {
    && (forall t :: t in e.woken ==> t in e.seen && t in e.want && t in e.option && t in e.eventSet)
    && (forall t :: t in e.woken ==> Satisfied(e.want[t], e.option[t], e.seen[t]))
    && (forall t :: t in e.woken ==> e.eventSet[t] == Recorded(e.want[t], e.option[t], e.seen[t]))
  }

  ghost predicate Inv(e: Event)
  {
    WaitInv(e.waiters, e.woken, e.pending, e.eventSet, e.option, e.want, e.error) && Quiescent(e) && WokenRight(e)
  }

  function Initial(): Event
  {
    Event({}, [], map[], map[], map[], {}, {}, {}, map[], map[])
  }

  lemma KnownWaiters(e: Event)
    requires Inv(e)
    ensures Known(e.waiters, e.eventSet, e.option)
  {
    forall i | 0 <= i < |e.waiters| ensures e.waiters[i] in e.eventSet && e.waiters[i] in e.option {
      var t := e.waiters[i];
      assert t in e.waiters;
      assert t in e.pending;
    }
  }

  lemma SendKeepsInv(e: Event, flags: Flags)
    requires Inv(e)
    ensures Known(e.waiters, e.eventSet, e.option) && Inv(SendStep(e, flags).0)
  {
    KnownWaiters(e);
    if flags != {} {
      ScanSettles(e.waiters, e.flags + flags, e.eventSet, e.option);
    }
  }

  /** Taking flags away satisfies nobody. */
  lemma FewerKeepsQuiet(e: Event, fewer: Flags, error: map<Tid, int>)
    requires Quiescent(e) && fewer <= e.flags
    ensures Quiescent(e.(flags := fewer, error := error))
  {
    forall u | u in e.waiters ensures !Satisfied(e.want[u], e.option[u], fewer) {
      if Satisfied(e.want[u], e.option[u], fewer) { FewerFlags(e.want[u], e.option[u], e.flags, fewer); }
    }
  }

  /** A call that returns at once leaves an error number and perhaps fewer flags. */
  lemma AnswerKeepsInv(e: Event, t: Tid, fewer: Flags, x: int)
    requires Inv(e) && t !in e.pending && fewer <= e.flags
    ensures Inv(e.(flags := fewer, error := e.error[t := x]))
  {
    FewerKeepsQuiet(e, fewer, e.error[t := x]);
  }

  lemma WaitKeepsInv(e: Event, t: Tid, want: Flags, o: Option, timeout: int, flag: Flag, prio: map<Tid, int>)
    requires Inv(e) && t !in e.pending && t in e.error && e.error[t] == EOK && !Satisfied(want, o, e.flags)
    requires Ranked(e.waiters, prio) && t in prio
    ensures Inv(WaitStep(e, t, want, o, timeout, flag, prio))
  {
    EnlistedDistinct(e.waiters, t, flag, prio);
  }

  lemma RecvKeepsInv(e: Event, t: Tid, want: Flags, o: Option, timeout: int, flag: Flag, prio: map<Tid, int>)
    requires Inv(e) && Enabled(e, Recv(t, want, o, timeout, prio))
    ensures Inv(RecvStep(e, t, want, o, timeout, flag, prio).0)
  {
    if want != {} {
      if Satisfied(want, o, e.flags) {
        AnswerKeepsInv(e, t, if o.clear then e.flags - want else e.flags, EOK);
      } else if timeout == 0 {
        AnswerKeepsInv(e, t, e.flags, ETIMEOUT);
        assert e.error[t := EOK][t := ETIMEOUT] == e.error[t := ETIMEOUT];
      } else {
        AnswerKeepsInv(e, t, e.flags, EOK);
        WaitKeepsInv(e.(error := e.error[t := EOK]), t, want, o, timeout, flag, prio);
      }
    }
  }

  lemma NextKeepsInv(e: Event, s: Step, flag: Flag)
    requires Inv(e) && Enabled(e, s)
    ensures Inv(Next(e, s, flag).0)
  {
    match s
    case Send(flags) => SendKeepsInv(e, flags);
    case Recv(t, want, o, timeout, prio) => RecvKeepsInv(e, t, want, o, timeout, flag, prio);
    case Run(t) =>
    case Expire(t) => DroppedMembers(e.waiters, t);
    case Reset => AllFailedAt(e.error, e.waiters);
  }

  // ---- whole runs

  ghost predicate Runs(e: Event, steps: seq<Step>, flag: Flag)
    requires Inv(e)
    decreases |steps|
  {
    steps == [] ||
    (Enabled(e, steps[0]) && (NextKeepsInv(e, steps[0], flag); Runs(Next(e, steps[0], flag).0, steps[1..], flag)))
  }

  ghost function After(e: Event, steps: seq<Step>, flag: Flag): Event
    requires Inv(e) && Runs(e, steps, flag)
    decreases |steps|
  {
    if steps == [] then e
    else (NextKeepsInv(e, steps[0], flag); After(Next(e, steps[0], flag).0, steps[1..], flag))
  }

  /** After every send, receive, expiry or reset of every run the event object is quiescent. */
  lemma {:induction false} EveryRunKeepsInv(e: Event, steps: seq<Step>, flag: Flag)
    requires Inv(e) && Runs(e, steps, flag)
    ensures Inv(After(e, steps, flag))
    decreases |steps|
  {
    if steps != [] {
      NextKeepsInv(e, steps[0], flag);
      EveryRunKeepsInv(Next(e, steps[0], flag).0, steps[1..], flag);
    }
  }

  /** What a receive reports: the wanted flags that were up when it was satisfied; all of them for AND, at
      least one for OR. */
  lemma ReportIsHonest(e: Event, t: Tid)
    requires Inv(e) && Enabled(e, Run(t)) && RunStep(e, t).1.Received?
    ensures t in e.seen && Satisfied(e.want[t], e.option[t], e.seen[t])
    ensures RunStep(e, t).1.flags == e.want[t] * e.seen[t]
    ensures e.option[t].all ==> RunStep(e, t).1.flags == e.want[t]
    ensures !e.option[t].all ==> RunStep(e, t).1.flags != {}
  {
    assert t in e.woken;
  }
}
