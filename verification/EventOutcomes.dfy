/** What sends and receives on an event do, flag by flag and waiter by waiter. */
module EventOutcomes {
  import opened Basics
  import opened Ring
  import opened WaitList
  import opened EventModel

  /** All the wanted flags are up for AND, and one of them is for OR. */
  ghost predicate Met(want: Flags, o: Option, up: Flags)
  {
    if o.all then forall f :: f in want ==> f in up else o.any && exists f :: f in want && f in up
  }

  lemma MetIsSatisfied(want: Flags, o: Option, up: Flags)
    ensures Met(want, o, up) <==> Satisfied(want, o, up)
  {
    if !o.all && want * up != {} {
      var f :| f in want * up;
      assert f in want && f in up;
    }
    if f :| f in want && f in up { assert f in want * up; }
  }

  // ---- receives

  /** A receive whose flags are up returns at once: it reports the wanted flags that are up, and with CLEAR none of the
      wanted flags stays up. Otherwise it fails if it has no waiting time, and else waits with all flags left alone. */
  lemma RecvOutcome(e: Event, t: Tid, want: Flags, o: Option, timeout: int, prio: map<Tid, int>, flag: Flag)
    requires Inv(e) && Enabled(e, Recv(t, want, o, timeout, prio))
    ensures var (r, out) := Next(e, Recv(t, want, o, timeout, prio), flag);
      && (want == {} ==> r == e && out == Failed(ERROR))
      && (want != {} && Met(want, o, e.flags) ==>
            && out.Received? && (forall f :: f in out.flags <==> f in want && f in e.flags)
            && (forall f :: f in r.flags <==> f in e.flags && !(o.clear && f in want))
            && r.waiters == e.waiters && r.pending == e.pending && r.error == e.error[t := EOK])
      && (want != {} && !Met(want, o, e.flags) ==> r.flags == e.flags)
      && (want != {} && !Met(want, o, e.flags) && timeout == 0 ==>
            out == Failed(ETIMEOUT) && r.waiters == e.waiters && r.pending == e.pending)
      && (want != {} && !Met(want, o, e.flags) && timeout != 0 ==>
            && out == Pending && LinesUp(e.waiters, r.waiters, t, flag, prio) && r.pending == e.pending + {t}
            && r.want == e.want[t := want] && r.option == e.option[t := o] && r.error == e.error[t := EOK]
            && (t in r.timed <==> timeout > 0))
  {
    MetIsSatisfied(want, o, e.flags);
    EnlistedLinesUp(e.waiters, t, flag, prio);
  }

  /** What a receive that returns at once reports: all wanted flags for AND, at least one for OR. */
  lemma ReportAtOnce(e: Event, t: Tid, want: Flags, o: Option, timeout: int, prio: map<Tid, int>, flag: Flag)
    requires Inv(e) && Enabled(e, Recv(t, want, o, timeout, prio)) && want != {} && Met(want, o, e.flags)
    ensures var out := Next(e, Recv(t, want, o, timeout, prio), flag).1;
      && out.Received? && (o.all ==> out.flags == want) && (!o.all ==> out.flags != {})
  {
    RecvOutcome(e, t, want, o, timeout, prio, flag);
    if !o.all {
      var f :| f in want && f in e.flags;
      assert f in Next(e, Recv(t, want, o, timeout, prio), flag).1.flags;
    }
  }

  /** Cleared flags are gone: the same receive again times out. */
  lemma ClearedOnce(e: Event, t: Tid, want: Flags, o: Option, prio: map<Tid, int>, flag: Flag)
    requires Inv(e) && Enabled(e, Recv(t, want, o, 0, prio)) && want != {} && Met(want, o, e.flags) && o.clear
    ensures var r := Next(e, Recv(t, want, o, 0, prio), flag).0;
      (NextKeepsInv(e, Recv(t, want, o, 0, prio), flag); Enabled(r, Recv(t, want, o, 0, prio))
        && Next(r, Recv(t, want, o, 0, prio), flag).1 == Failed(ETIMEOUT))
  {
    var s := Recv(t, want, o, 0, prio);
    NextKeepsInv(e, s, flag);
    RecvOutcome(e, t, want, o, 0, prio, flag);
    var r := Next(e, s, flag).0;
    assert Enabled(r, s);
    var f :| f in want;
    assert f !in r.flags;
    RecvOutcome(r, t, want, o, 0, prio, flag);
  }

  // ---- sends

  /** Some woken waiter that clears was given flag f. */
  ghost predicate Consumed(f: nat, woken: set<Tid>, eventSet: map<Tid, Flags>, option: map<Tid, Option>)
  {
    exists t :: t in woken && t in option && t in eventSet && option[t].clear && f in eventSet[t]
  }

  /** A scan takes away exactly the flags that a woken waiter with CLEAR was given. */
  lemma {:induction false} ScanClears(l: seq<Tid>, flags: Flags, eventSet: map<Tid, Flags>, option: map<Tid, Option>)
    requires Known(l, eventSet, option) && Distinct(l)
    ensures var s := Scanned(l, flags, eventSet, option);
      forall f :: f in s.flags <==> f in flags && !Consumed(f, s.woken, s.eventSet, option)
    decreases |l|
  {
    if l != [] {
      var t := l[0];
      var w, o := eventSet[t], option[t];
      PopDistinct(l);
      if Satisfied(w, o, flags) {
        ScanClears(l[1..], Left(w, o, flags), eventSet[t := Recorded(w, o, flags)], option);
        ScanSettles(l[1..], Left(w, o, flags), eventSet[t := Recorded(w, o, flags)], option);
        OneConsumes(t, Scanned(l[1..], Left(w, o, flags), eventSet[t := Recorded(w, o, flags)], option), option);
      } else {
        ScanClears(l[1..], flags, eventSet, option);
      }
    }
  }

  lemma OneConsumes(t: Tid, s: Scan, option: map<Tid, Option>)
    requires t in option && t in s.eventSet
    ensures forall f :: Consumed(f, s.woken + {t}, s.eventSet, option) <==>
      Consumed(f, s.woken, s.eventSet, option) || (option[t].clear && f in s.eventSet[t])
  {
  }

  ghost function Members(l: seq<Tid>): set<Tid>
  {
    set t | t in l
  }

  /** The flags that waiter i of the list sees: those that no woken waiter in front of it cleared. */
  ghost function UpAt(l: seq<Tid>, i: nat, flags: Flags, s: Scan, option: map<Tid, Option>): Flags
    requires i <= |l|
  {
    set f | f in flags && !Consumed(f, s.woken * Members(l[..i]), s.eventSet, option)
  }

  /** Each waiter is woken exactly if its condition is met when its turn comes, and is given what it then finds. */
  lemma {:induction false} TurnByTurn(l: seq<Tid>, i: nat, flags: Flags, eventSet: map<Tid, Flags>, option: map<Tid, Option>)
    requires Known(l, eventSet, option) && Distinct(l) && i < |l|
    ensures var s := Scanned(l, flags, eventSet, option);
      var want, o, up := eventSet[l[i]], option[l[i]], UpAt(l, i, flags, s, option);
      && (l[i] in s.woken <==> Met(want, o, up))
      && l[i] in s.eventSet && (l[i] in s.woken ==> s.eventSet[l[i]] == want * up)
    decreases |l|
  {
    var t := l[0];
    var w, o := eventSet[t], option[t];
    var s := Scanned(l, flags, eventSet, option);
    var now := if Satisfied(w, o, flags) then Left(w, o, flags) else flags;
    var eventSet1 := if Satisfied(w, o, flags) then eventSet[t := Recorded(w, o, flags)] else eventSet;
    var s1 := Scanned(l[1..], now, eventSet1, option);
    PopDistinct(l);
    ScanSettles(l[1..], now, eventSet1, option);
    MetIsSatisfied(w, o, flags);
    if i == 0 {
      assert UpAt(l, 0, flags, s, option) == flags;
    } else {
      TurnByTurn(l[1..], i - 1, now, eventSet1, option);
      assert l[i] == l[1..][i - 1] && l[i] in l[1..];
      FirstTurn(l, i, flags, s, s1, now, option);
    }
  }

  lemma FirstTurn(l: seq<Tid>, i: nat, flags: Flags, s: Scan, s1: Scan, now: Flags, option: map<Tid, Option>)
    requires 0 < i < |l| && l[0] in option && l[0] in s1.eventSet && s.eventSet == s1.eventSet && l[0] !in s1.woken
    requires s.woken == s1.woken || s.woken == s1.woken + {l[0]}
    requires now == if l[0] in s.woken && option[l[0]].clear then flags - s1.eventSet[l[0]] else flags
    ensures UpAt(l, i, flags, s, option) == UpAt(l[1..], i - 1, now, s1, option)
  {
    var t := l[0];
    var front, rest := Members(l[..i]), Members(l[1..][..i - 1]);
    assert l[..i] == [t] + l[1..][..i - 1];
    assert front == rest + {t};
    var a, b := s.woken * front, s1.woken * rest;
    assert a == if t in s.woken then b + {t} else b;
    OneConsumes(t, s1.(woken := b), option);
  }

  /** What is left of a list without some of its threads. */
  function Others(l: seq<Tid>, woken: set<Tid>): seq<Tid>
    decreases |l|
  {
    if l == [] then [] else (if l[0] in woken then [] else [l[0]]) + Others(l[1..], woken)
  }

  lemma {:induction false} OthersSame(l: seq<Tid>, a: set<Tid>, b: set<Tid>)
    requires forall t :: t in l ==> (t in a <==> t in b)
    ensures Others(l, a) == Others(l, b)
    decreases |l|
  {
    if l != [] {
      var t: Tid := l[0];
      assert t in l;
      assert t in a <==> t in b;
      OthersSame(l[1..], a, b);
    }
  }

  /** The waiters that are not woken stay in their order. */
  lemma {:induction false} ScanKeepsOrder(l: seq<Tid>, flags: Flags, eventSet: map<Tid, Flags>, option: map<Tid, Option>)
    requires Known(l, eventSet, option) && Distinct(l)
    ensures var s := Scanned(l, flags, eventSet, option); s.waiters == Others(l, s.woken)
    decreases |l|
  {
    if l != [] {
      var t := l[0];
      var w, o := eventSet[t], option[t];
      PopDistinct(l);
      if Satisfied(w, o, flags) {
        ScanKeepsOrder(l[1..], Left(w, o, flags), eventSet[t := Recorded(w, o, flags)], option);
        var r := Scanned(l[1..], Left(w, o, flags), eventSet[t := Recorded(w, o, flags)], option);
        OthersSame(l[1..], r.woken, r.woken + {t});
      } else {
        ScanKeepsOrder(l[1..], flags, eventSet, option);
        ScanSettles(l[1..], flags, eventSet, option);
      }
    }
  }

  /** A send of no flags fails. Any other adds its flags and wakes waiters in the order of the list, each one whose
      condition is met when its turn comes; exactly the flags that a woken waiter with CLEAR was given are gone. */
  lemma SendOutcome(e: Event, flags: Flags, flag: Flag) returns (now: set<Tid>)
    requires Inv(e)
    ensures var (r, out) := Next(e, Send(flags), flag);
      && (flags == {} ==> r == e && out == Failed(ERROR))
      && (flags != {} ==>
            && out == Done && r.woken == e.woken + now && r.waiters == Others(e.waiters, now)
            && (forall t :: t in now ==> t in e.waiters)
            && (forall f :: f in r.flags <==> (f in e.flags || f in flags) && !Consumed(f, now, r.eventSet, e.option)))
      && r.pending == e.pending && r.error == e.error && r.option == e.option && r.want == e.want
  {
    KnownWaiters(e);
    now := {};
    if flags != {} {
      now := Scanned(e.waiters, e.flags + flags, e.eventSet, e.option).woken;
      ScanClears(e.waiters, e.flags + flags, e.eventSet, e.option);
      ScanKeepsOrder(e.waiters, e.flags + flags, e.eventSet, e.option);
      ScanSettles(e.waiters, e.flags + flags, e.eventSet, e.option);
    }
  }

  /** A waiter that a send wakes returns, when it runs, the flags it was given; one whose timer expires, or whose event is
      reset, reports that. */
  lemma EndOfWait(e: Event, s: Step, t: Tid, flag: Flag)
    requires Inv(e) && t in e.waiters && Enabled(e, s) && (s.Send? || s == Expire(t) || s.Reset?)
    ensures var r := Next(e, s, flag).0;
      && (s == Expire(t) || s.Reset? ==> t !in r.waiters)
      && (t !in r.waiters ==>
            (NextKeepsInv(e, s, flag); Enabled(r, Run(t)) && t in r.eventSet && Next(r, Run(t), flag) ==
              (r.(pending := r.pending - {t}, woken := r.woken - {t}),
               if s.Send? then Received(r.eventSet[t]) else Failed(if s.Reset? then ERROR else ETIMEOUT))))
  {
    NextKeepsInv(e, s, flag);
    KnownWaiters(e);
    AllFailedAt(e.error, e.waiters);
    DroppedMembers(e.waiters, t);
  }

  /** A reset takes all flags down and lets nobody wait. */
  lemma ResetOutcome(e: Event, flag: Flag)
    requires Inv(e)
    ensures var r := Next(e, Reset, flag).0; r.flags == {} && r.waiters == [] && r.pending == e.pending
  {
  }
}
