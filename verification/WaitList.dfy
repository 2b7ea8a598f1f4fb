/** The list of threads suspended on an IPC object: in arrival order, or by priority with
    ties in arrival order. A smaller number is a more urgent priority. */
module WaitList {
  import opened Basics
  import opened Ring

  type Tid = int

  datatype Flag = Fifo | Prio

  ghost predicate Ranked(l: seq<Tid>, prio: map<Tid, int>)
  {
    forall i :: 0 <= i < |l| ==> l[i] in prio
  }

  /** Every thread of l[..] stands behind nobody less urgent. */
  ghost predicate ByPriority(l: seq<Tid>, prio: map<Tid, int>)
    requires Ranked(l, prio)
  {
    forall i, j :: 0 <= i < j < |l| ==> prio[l[i]] <= prio[l[j]]
  }

  /** The first place whose thread is strictly less urgent than p. */
  ghost function Place(l: seq<Tid>, p: int, prio: map<Tid, int>): (k: nat)
    requires Ranked(l, prio)
    ensures k <= |l|
    ensures k < |l| ==> p < prio[l[k]]
    ensures forall i :: 0 <= i < k ==> prio[l[i]] <= p
  {
    if l == [] || p < prio[l[0]] then 0 else 1 + Place(l[1..], p, prio)
  }

  ghost function Enlisted(l: seq<Tid>, t: Tid, flag: Flag, prio: map<Tid, int>): (r: seq<Tid>)
    requires Ranked(l, prio) && t in prio
    ensures forall u :: u in r <==> u in l || u == t
    ensures |r| == |l| + 1
  {
    var k := if flag.Fifo? then |l| else Place(l, prio[t], prio);
    InsertedMembers(l, k, t);
    InsertedAt(l, k, t)
  }

  lemma InsertedMembers(l: seq<Tid>, k: nat, t: Tid)
    requires k <= |l|
    ensures forall u :: u in InsertedAt(l, k, t) <==> u in l || u == t
  {
    assert l == l[..k] + l[k..];
  }

  lemma EnlistedDistinct(l: seq<Tid>, t: Tid, flag: Flag, prio: map<Tid, int>)
    requires Ranked(l, prio) && t in prio && Distinct(l) && t !in l
    ensures Distinct(Enlisted(l, t, flag, prio))
  {
  }

  /** A newcomer keeps the list in priority order, stands behind everybody at least as urgent
      (so behind its equals) and leaves the others in their order. */
  lemma EnlistedInOrder(l: seq<Tid>, t: Tid, prio: map<Tid, int>)
    requires Ranked(l, prio) && t in prio && ByPriority(l, prio)
    ensures ByPriority(Enlisted(l, t, Prio, prio), prio)
    ensures var k := Place(l, prio[t], prio);
      && Enlisted(l, t, Prio, prio) == l[..k] + [t] + l[k..]
      && (forall u :: u in l[..k] ==> prio[u] <= prio[t])
      && (forall u :: u in l[k..] ==> prio[u] > prio[t])
  {
    InsertedInOrder(l, Place(l, prio[t], prio), t, prio);
  }

  lemma InsertedInOrder(l: seq<Tid>, k: nat, t: Tid, prio: map<Tid, int>)
    requires Ranked(l, prio) && t in prio && ByPriority(l, prio) && k <= |l|
    requires (forall i :: 0 <= i < k ==> prio[l[i]] <= prio[t]) && (k < |l| ==> prio[t] < prio[l[k]])
    ensures Ranked(InsertedAt(l, k, t), prio) && ByPriority(InsertedAt(l, k, t), prio)
    ensures (forall u :: u in l[..k] ==> prio[u] <= prio[t]) && (forall u :: u in l[k..] ==> prio[u] > prio[t])
  {
    var r := InsertedAt(l, k, t);
    forall i | 0 <= i < |r| ensures r[i] == if i < k then l[i] else if i == k then t else l[i - 1] { }
    forall i | k <= i < |l| ensures prio[l[i]] > prio[t] { }
  }

  /** rt_ipc_list_suspend. */
  method Suspend(l: seq<Tid>, t: Tid, flag: Flag, prio: map<Tid, int>) returns (r: seq<Tid>)
    requires Ranked(l, prio) && t in prio
    ensures r == Enlisted(l, t, flag, prio)
  {
    match flag
    case Fifo =>
      r := l + [t];
      assert r == InsertedAt(l, |l|, t);
    case Prio =>
      var n := 0;
      ghost var k := Place(l, prio[t], prio);
      while n < |l| && prio[t] >= prio[l[n]]
        invariant 0 <= n <= k
      {
        n := n + 1;
      }
      r := l[..n] + [t] + l[n..];
  }

  // ---- what the calls that wait have in common

  const EOK := 0
  const ERROR := -1
  const ETIMEOUT := -2
  const EFULL := -3

  /** What is left of a waiting time; a negative one waits forever. */
  function Remaining(timeout: int, elapsed: nat): int
  {
    if timeout > 0 then (if timeout - elapsed < 0 then 0 else timeout - elapsed) else timeout
  }

  /** Waiting in parts is waiting once for the sum: the time left counts down to 0 and stays there; without a positive
      waiting time nothing is counted. */
  lemma WaitsAddUp(timeout: int, a: nat, b: nat)
    ensures Remaining(Remaining(timeout, a), b) == Remaining(timeout, a + b)
    ensures timeout > 0 && a <= timeout ==> Remaining(timeout, a) + a == timeout
    ensures timeout > 0 && a >= timeout ==> Remaining(timeout, a) == 0
    ensures timeout <= 0 ==> Remaining(timeout, a) == timeout
  {
  }

  /** r is l with t in its place: at the end in arrival order, in front of the first less urgent thread by priority. */
  ghost predicate LinesUp(l: seq<Tid>, r: seq<Tid>, t: Tid, flag: Flag, prio: map<Tid, int>)
    requires Ranked(l, prio) && t in prio
  {
    match flag
    case Fifo => r == l + [t]
    case Prio => exists k: nat :: InFrontOf(l, r, t, k, prio)
  }

  ghost predicate InFrontOf(l: seq<Tid>, r: seq<Tid>, t: Tid, k: nat, prio: map<Tid, int>)
    requires Ranked(l, prio) && t in prio
  {
    && k <= |l| && r == l[..k] + [t] + l[k..]
    && (forall i :: 0 <= i < k ==> prio[l[i]] <= prio[t]) && (k < |l| ==> prio[t] < prio[l[k]])
  }

  lemma EnlistedLinesUp(l: seq<Tid>, t: Tid, flag: Flag, prio: map<Tid, int>)
    requires Ranked(l, prio) && t in prio
    ensures LinesUp(l, Enlisted(l, t, flag, prio), t, flag, prio)
  {
    if flag.Prio? { assert InFrontOf(l, Enlisted(l, t, flag, prio), t, Place(l, prio[t], prio), prio); }
  }

  /** rt_ipc_list_resume_all gives every waiter the general error. */
  function AllFailed(error: map<Tid, int>, l: seq<Tid>): map<Tid, int>
    decreases |l|
  {
    if l == [] then error else AllFailed(error[l[0] := ERROR], l[1..])
  }

  lemma {:induction false} AllFailedAt(error: map<Tid, int>, l: seq<Tid>)
    ensures forall t :: t in AllFailed(error, l) <==> t in error || t in l
    ensures forall t :: t in l ==> AllFailed(error, l)[t] == ERROR
    ensures forall t :: t in error && t !in l ==> AllFailed(error, l)[t] == error[t]
    decreases |l|
  {
    if l != [] {
      AllFailedAt(error[l[0] := ERROR], l[1..]);
      assert l == [l[0]] + l[1..];
    }
  }
}
