/** The two-group proportional scheduler sched() of kernel/proc.c and the quota system calls. */
module Scheduler {
  import opened Queues
  import opened KernelState

  function Rotate(q: seq<nat>): seq<nat>
    requires q != []
  {
    q[1..] + [q[0]]
  }

  /** The counters after ++sum; from the 201st rotation on both histories are wiped each time. */
  function Tick(h: History): History {
    if h.sum + 1 > 200 then History(0, 0, h.sum + 1) else h.(sum := h.sum + 1)
  }

  /** The group has used up its quota. */
  predicate OverQuota(h: History, group: nat, divider: int) {
    || (group == 1 && h.b > 100 - divider)
    || (group == 0 && h.a > divider)
  }

  function Grant(h: History, group: nat): History {
    if group != 0 then h.(b := h.b + 1) else h.(a := h.a + 1)
  }

  function Group(proc: seq<Proc>, q: seq<nat>): nat
    requires q != []
  {
    if q[0] < |proc| then proc[q[0]].priGroup else 0
  }

  /** The while(1) loop of sched(): rotate until the head's group is within its quota.  The
      histories are wiped once sum exceeds 200, so the loop ends for any quotas >= 0. */
  function SchedLoop(proc: seq<Proc>, q: seq<nat>, h: History, divider: int): (seq<nat>, History)
    requires q != [] && 0 <= divider <= 100
    decreases if h.sum > 200 then 0 else 201 - h.sum
  {
    var q1, h1 := Rotate(q), Tick(h);
    if OverQuota(h1, Group(proc, q1), divider) then SchedLoop(proc, q1, h1, divider)
    else (q1, Grant(h1, Group(proc, q1)))
  }

  function Sched(s: State): State
    requires 7 <= s.nrTasks && |s.rdy| == 3 && 0 <= s.divider <= 100
  {
    if s.rdy[USER_Q] == [] then s
    else
      var (q, h) := SchedLoop(s.proc, s.rdy[USER_Q], s.history, s.divider);
      PickProc(s.(rdy := s.rdy[USER_Q := q], history := h))
  }

  // ------------------------------------------------- what one call does

  /** q rotated k times. */
  function RotateBy(q: seq<nat>, k: nat): (r: seq<nat>)
    requires q != []
    ensures |r| == |q|
  {
    if k == 0 then q else Rotate(RotateBy(q, k - 1))
  }

  lemma {:induction false} RotateByFirst(q: seq<nat>, k: nat)
    requires q != []
    ensures RotateBy(Rotate(q), k) == RotateBy(q, k + 1)
  {
    if k > 0 {
      RotateByFirst(q, k - 1);
    }
  }

  /** Rotating k times moves the first k elements behind the others. */
  lemma {:induction false} RotateBySplit(q: seq<nat>, k: nat)
    requires q != [] && k <= |q|
    ensures RotateBy(q, k) == q[k..] + q[..k]
  {
    if k > 0 {
      RotateBySplit(q, k - 1);
      var r := q[k - 1..] + q[..k - 1];
      assert r[0] == q[k - 1] && r[1..] == q[k..] + q[..k - 1];
      assert q[..k] == q[..k - 1] + [q[k - 1]];
    }
  }

  lemma {:induction false} RotateByKeepsMembers(q: seq<nat>, k: nat)
    requires q != []
    ensures multiset(RotateBy(q, k)) == multiset(q)
  {
    if k > 0 {
      RotateByKeepsMembers(q, k - 1);
      var r := RotateBy(q, k - 1);
      assert r == [r[0]] + r[1..];
    }
  }

  lemma RotateMembers(q: seq<nat>)
    requires q != [] && NoDup(q)
    ensures NoDup(Rotate(q))
    ensures forall y: nat :: y in Rotate(q) <==> y in q
  {
  }

  /** The counters at the k-th rotation of one call that entered with h. */
  function At(h: History, k: nat): History {
    if k > 0 && h.sum + k > 200 then History(0, 0, h.sum + k) else h.(sum := h.sum + k)
  }

  /** n is the first rotation whose head is within quota. */
  ghost predicate FirstWithinQuota(proc: seq<Proc>, q: seq<nat>, h: History, divider: int, n: nat)
    requires q != []
  {
    && n > 0
    && !OverQuota(At(h, n), Group(proc, RotateBy(q, n)), divider)
    && forall k :: 0 < k < n ==> OverQuota(At(h, k), Group(proc, RotateBy(q, k)), divider)
  }

  /** sched() rotates the user queue to the first head whose group is within its quota, counts
      the turn for that group, and needs at most 201 - sum rotations (one, once sum is 200). */
  lemma {:induction false} SchedLoopPicksFirst(proc: seq<Proc>, q: seq<nat>, h: History, divider: int)
    returns (n: nat)
    requires q != [] && 0 <= divider <= 100
    ensures var (q', h') := SchedLoop(proc, q, h, divider);
            && FirstWithinQuota(proc, q, h, divider, n)
            && q' == RotateBy(q, n)
            && h' == Grant(At(h, n), Group(proc, q'))
    ensures n <= if h.sum >= 200 then 1 else 201 - h.sum
    decreases if h.sum > 200 then 0 else 201 - h.sum
  {
    var q1, h1 := Rotate(q), Tick(h);
    assert RotateBy(q, 1) == Rotate(RotateBy(q, 0)) == q1;
    assert h1 == At(h, 1);
    if OverQuota(h1, Group(proc, q1), divider) {
      var m := SchedLoopPicksFirst(proc, q1, h1, divider);
      n := m + 1;
      RotateByFirst(q, m);
      forall k | 0 < k < n ensures OverQuota(At(h, k), Group(proc, RotateBy(q, k)), divider) {
        if k > 1 {
          RotateByFirst(q, k - 1);
          assert At(h1, k - 1) == At(h, k);
        }
      }
      assert At(h1, m) == At(h, n);
    } else {
      n := 1;
    }
  }

  lemma {:induction false} SchedLoopMembers(proc: seq<Proc>, q: seq<nat>, h: History, divider: int)
    requires q != [] && NoDup(q) && 0 <= divider <= 100
    ensures NoDup(SchedLoop(proc, q, h, divider).0)
    ensures forall y: nat :: y in SchedLoop(proc, q, h, divider).0 <==> y in q
    decreases if h.sum > 200 then 0 else 201 - h.sum
  {
    RotateMembers(q);
    var q1, h1 := Rotate(q), Tick(h);
    if OverQuota(h1, Group(proc, q1), divider) {
      SchedLoopMembers(proc, q1, h1, divider);
    }
  }

  /** The user queue after sched() is a rotation of what it was: nobody is lost or doubled. */
  lemma SchedLoopIsRotation(proc: seq<Proc>, q: seq<nat>, h: History, divider: int)
    requires q != [] && 0 <= divider <= 100
    ensures exists n: nat :: SchedLoop(proc, q, h, divider).0 == RotateBy(q, n)
    ensures multiset(SchedLoop(proc, q, h, divider).0) == multiset(q)
  {
    var n := SchedLoopPicksFirst(proc, q, h, divider);
    RotateByKeepsMembers(q, n);
  }

  // ------------------------------------------------------- shares over runs

  /** One call of sched() in a run: the table and the user queue it finds. */
  datatype Turn = Turn(proc: seq<Proc>, q: seq<nat>)

  ghost predicate GoodTurns(turns: seq<Turn>) {
    forall i :: 0 <= i < |turns| ==> turns[i].q != []
  }

  /** The counters after the calls in turns, starting from h. */
  ghost function Run(turns: seq<Turn>, h: History, divider: int): History
    requires GoodTurns(turns) && 0 <= divider <= 100
  {
    if turns == [] then h
    else
      var t := turns[|turns| - 1];
      SchedLoop(t.proc, t.q, Run(turns[..|turns| - 1], h, divider), divider).1
  }

  /** How many of the calls gave the processor to a process of group B (inB) or A. */
  ghost function Grants(turns: seq<Turn>, h: History, divider: int, inB: bool): nat
    requires GoodTurns(turns) && 0 <= divider <= 100
  {
    if turns == [] then 0
    else
      var t, before := turns[|turns| - 1], turns[..|turns| - 1];
      var q := SchedLoop(t.proc, t.q, Run(before, h, divider), divider).0;
      assert |q| == |t.q| by { SchedLoopIsRotation(t.proc, t.q, Run(before, h, divider), divider); }
      Grants(before, h, divider, inB) + if (Group(t.proc, q) != 0) == inB then 1 else 0
  }

  ghost predicate TwoGroups(turns: seq<Turn>) {
    forall i, p :: 0 <= i < |turns| && 0 <= p < |turns[i].proc| ==> turns[i].proc[p].priGroup <= 1
  }

  /** Whatever the user queues look like, as long as at most 200 rotations were made in all,
      group A got at most d + 1 turns and group B at most 101 - d. */
  lemma {:induction false} ProportionalShare(turns: seq<Turn>, divider: int)
    requires GoodTurns(turns) && TwoGroups(turns) && 0 <= divider <= 100
    requires Run(turns, History(0, 0, 0), divider).sum <= 200
    ensures Grants(turns, History(0, 0, 0), divider, false) == Run(turns, History(0, 0, 0), divider).a <= divider + 1
    ensures Grants(turns, History(0, 0, 0), divider, true) == Run(turns, History(0, 0, 0), divider).b <= 101 - divider
  {
    if turns != [] {
      var t, before := turns[|turns| - 1], turns[..|turns| - 1];
      var h := Run(before, History(0, 0, 0), divider);
      var n := SchedLoopPicksFirst(t.proc, t.q, h, divider);
      ProportionalShare(before, divider);
      assert TwoGroups([t]) by { assert t == turns[|turns| - 1]; }
      assert Group(t.proc, RotateBy(t.q, n)) <= 1;
    }
  }

  /** After 200 rotations every call rotates exactly once. */
  lemma OneRotationLater(proc: seq<Proc>, q: seq<nat>, h: History, divider: int)
    requires q != [] && 0 <= divider <= 100 && h.sum >= 200
    ensures SchedLoop(proc, q, h, divider).0 == Rotate(q)
    ensures SchedLoop(proc, q, h, divider).1.sum == h.sum + 1
  {
  }

  /** The user queue after n calls in a row on the same processes. */
  ghost function Calls(proc: seq<Proc>, q: seq<nat>, h: History, divider: int, n: nat): (r: (seq<nat>, History))
    requires q != [] && 0 <= divider <= 100
    ensures |r.0| == |q|
    decreases n
  {
    if n == 0 then (q, h)
    else
      var (q1, h1) := Calls(proc, q, h, divider, n - 1);
      assert |SchedLoop(proc, q1, h1, divider).0| == |q1| by { SchedLoopIsRotation(proc, q1, h1, divider); }
      SchedLoop(proc, q1, h1, divider)
  }

  lemma {:induction false} CallsRotate(proc: seq<Proc>, q: seq<nat>, h: History, divider: int, n: nat)
    requires q != [] && 0 <= divider <= 100 && h.sum >= 200
    ensures Calls(proc, q, h, divider, n).0 == RotateBy(q, n)
    ensures Calls(proc, q, h, divider, n).1.sum == h.sum + n
  {
    if n > 0 {
      CallsRotate(proc, q, h, divider, n - 1);
      var (q1, h1) := Calls(proc, q, h, divider, n - 1);
      OneRotationLater(proc, q1, h1, divider);
    }
  }

  /** Then n calls on an unchanged queue of n processes put each of them in front exactly once
      (the i-th call puts q[i] there, the last one q[0]), whatever their groups. */
  lemma RoundRobinLater(proc: seq<Proc>, q: seq<nat>, h: History, divider: int, i: nat)
    requires 0 < i <= |q| && 0 <= divider <= 100 && h.sum >= 200
    ensures Calls(proc, q, h, divider, i).0[0] == q[if i < |q| then i else 0]
    ensures Calls(proc, q, h, divider, |q|).0 == q
  {
    CallsRotate(proc, q, h, divider, i);
    RotateBySplit(q, i);
    CallsRotate(proc, q, h, divider, |q|);
    RotateBySplit(q, |q|);
  }
}
