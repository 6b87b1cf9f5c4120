/** The kernel's process table with its real links, updated in place as in kernel/proc.c and
    kernel/system.c.  Each method is proved to do to the abstract state what the functions of
    KernelState, Scheduler and SystemTask say. */
module KernelTable {
  import opened Queues
  import opened KernelState
  import opened KernelInvariants
  import opened KernelMessages
  import opened Scheduler
  import opened SystemTask
  import opened KernelSteps
  import opened KernelRuns

  /** The sequences represented by the queues are duplicate-free and have no common element. */
  ghost predicate Disjoint(qs: seq<seq<nat>>) {
    && (forall d :: 0 <= d < |qs| ==> NoDup(qs[d]))
    && (forall d, e, x: nat {:trigger x in qs[d], x in qs[e]} ::
          0 <= d < |qs| && 0 <= e < |qs| && x in qs[d] && x in qs[e] ==> d == e)
  }

  /** Every queue of qs is chained from its own head through next. */
  ghost predicate AllChained(heads: seq<int>, next: seq<int>, qs: seq<seq<nat>>) {
    && |heads| == |qs|
    && Disjoint(qs)
    && forall d {:trigger qs[d]} :: 0 <= d < |qs| ==> Chain(heads[d], next, qs[d])
  }

  /** Every non-empty queue's tail pointer is its last element. */
  ghost predicate AllTailed(tails: seq<int>, qs: seq<seq<nat>>) {
    && |tails| == |qs|
    && forall d :: 0 <= d < |qs| && qs[d] != [] ==> tails[d] == qs[d][|qs[d]| - 1]
  }

  /** One queue is replaced, together with the links of its own elements only. */
  lemma ReplaceQueue(heads: seq<int>, next: seq<int>, qs: seq<seq<nat>>, d: nat, head: int, next': seq<int>, q: seq<nat>)
    requires AllChained(heads, next, qs) && d < |qs| && |next'| == |next|
    requires NoDup(q) && Chain(head, next', q)
    requires forall x: nat :: x in q ==> x in qs[d] || forall e :: 0 <= e < |qs| ==> x !in qs[e]
    requires forall x: nat :: x < |next| && next'[x] != next[x] ==> x in q || x in qs[d]
    ensures AllChained(heads[d := head], next', qs[d := q])
  {
    var qs' := qs[d := q];
    forall e | 0 <= e < |qs'| ensures Chain(heads[d := head][e], next', qs'[e]) {
      if e != d {
        ChainInRange(heads[e], next, qs[e]);
        ChainFrame(heads[e], next, next', qs[e]);
      }
    }
  }

  lemma LastWithout(q: seq<nat>, i: nat)
    requires NoDup(q) && 0 < i < |q|
    ensures Without(q, i) != []
    ensures Without(q, i)[|q| - 2] == if q[|q| - 1] == q[i] then q[i - 1] else q[|q| - 1]
  {
  }

  lemma ReplaceTail(tails: seq<int>, qs: seq<seq<nat>>, d: nat, tail: int, q: seq<nat>)
    requires AllTailed(tails, qs) && d < |qs|
    requires q != [] ==> tail == q[|q| - 1]
    ensures AllTailed(tails[d := tail], qs[d := q])
  {
  }

  lemma QueueFacts(heads: seq<int>, next: seq<int>, qs: seq<seq<nat>>, d: nat)
    requires AllChained(heads, next, qs) && d < |qs|
    ensures NoDup(qs[d]) && Chain(heads[d], next, qs[d])
    ensures heads[d] == (if qs[d] == [] then NIL else qs[d][0])
  {
  }

  lemma TailFacts(tails: seq<int>, qs: seq<seq<nat>>, d: nat)
    requires AllTailed(tails, qs) && d < |qs| && qs[d] != []
    ensures tails[d] == qs[d][|qs[d]| - 1]
  {
  }

  lemma {:induction false} FirstMatchIs(q: seq<nat>, src: int, i: nat)
    requires i <= |q| && (i < |q| ==> Accepts(src, q[i]))
    requires forall k :: 0 <= k < i ==> !Accepts(src, q[k])
    ensures FirstMatch(q, src) == i
  {
    if i > 0 {
      assert !Accepts(src, q[0]);
      FirstMatchIs(q[1..], src, i - 1);
    }
  }

  /** The part of the invariants mini_send relies on. */
  ghost predicate SendersOk(s: State) {
    && Shape(s.nrTasks, s.proc)
    && ReadyAgree(s.nrTasks, s.proc, s.rdy)
    && CallersAgree(s.nrTasks, s.proc, s.callerq)
    && Acyclic(s.proc)
  }

  lemma NotQueued(nrTasks: nat, proc: seq<Proc>, rdy: seq<seq<nat>>, p: nat)
    requires ReadyAgree(nrTasks, proc, rdy) && p < |proc| && !proc[p].Runnable()
    ensures forall c :: 0 <= c < 3 ==> p !in rdy[c]
  {
  }

  lemma NotCalling(nrTasks: nat, proc: seq<Proc>, callerq: seq<seq<nat>>, p: nat)
    requires CallersAgree(nrTasks, proc, callerq) && p < |proc| && !proc[p].sending
    ensures forall d :: 0 <= d < |callerq| ==> p !in callerq[d]
  {
  }

  /** What inform() needs to know before it counts a process off and tells MM about it. */
  lemma InformContract(s: State)
    requires Core(s) && s.sigProcs > 0
    requires s.proc[MmSlot(s.nrTasks)].receiving && s.proc[MmSlot(s.nrTasks)].getFrom == ANY
    ensures Sized(s) && FirstPending(s.proc, s.nrTasks) < |s.proc|
    ensures var s0, hw, mm := s.(sigProcs := s.sigProcs - 1), HardwareSlot(s.nrTasks), MmSlot(s.nrTasks);
            && SendersOk(s0) && MaySend(s0, hw, mm)
            && MiniSend(s0, hw, mm, true).1 == OK
            && Inform(s) == PickProc(HandOver(MiniSend(s0, hw, mm, true).0, FirstPending(s.proc, s.nrTasks)))
  {
  }

  /** What sys_call() needs between its send and its receive half. */
  lemma SendKeepsCoreForCall(s: State, call: Call, srcDest: int, addressOk: bool)
    requires Inv(s) && Sized(s) && s.procPtr < |s.proc| && MaySysCall(s, call, srcDest) && !call.Receive?
    requires 0 <= srcDest < |s.proc| || srcDest == ANY
    requires s.proc[s.procPtr].priority.User? ==> call.Both?
    ensures SendersOk(s) && MaySend(s, s.procPtr, srcDest)
    ensures var (s1, code) := MiniSend(s, s.procPtr, srcDest, addressOk);
            code == OK && call.Both? ==> Core(s1) && MmInformed(s1) && MayReceive(s1, s.procPtr, srcDest)
  {
    RunningIsReal(s);
    assert SlotOk(s.nrTasks, s.procPtr, s.proc[s.procPtr]);
    MiniSendKeepsCore(s, s.procPtr, srcDest, addressOk);
    SendKeepsInformed(s, s.procPtr, srcDest, addressOk);
  }

  /** The four assignments by which sched() rotates a queue. */
  lemma ChainRotate(head: int, next: seq<int>, q: seq<nat>)
    requires Chain(head, next, q) && q != [] && NoDup(q)
    ensures q[0] < |next| && q[|q| - 1] < |next|
    ensures var linked := next[q[|q| - 1] := q[0]];
            Chain(linked[q[0]], linked[q[0] := NIL], Rotate(q))
  {
    var n := |q|;
    ChainLink(head, next, q, 0);
    ChainLink(head, next, q, n - 1);
    var linked := next[q[n - 1] := q[0]];
    var m, r := linked[q[0] := NIL], Rotate(q);
    forall i | 0 <= i < n ensures r[i] < |m| && m[r[i]] == Successor(r, i) {
      if i < n - 1 {
        ChainLink(head, next, q, i + 1);
        assert r[i] == q[i + 1];
      }
    }
  }

  lemma InvIsCore(s: State)
    requires Inv(s)
    ensures Core(s)
  {
  }

  lemma SignalsCounted(s: State)
    requires Core(s)
    ensures s.sigProcs >= 0
  {
  }

  lemma VacantNotReady(nrTasks: nat, proc: seq<Proc>, rdy: seq<seq<nat>>, p: nat)
    requires ReadyAgree(nrTasks, proc, rdy) && p < |proc| && proc[p].priority.Vacant?
    ensures forall c :: 0 <= c < 3 ==> p !in rdy[c]
  {
  }

  /** A link that no queue uses may take any value. */
  lemma FrameQueues(heads: seq<int>, next: seq<int>, next': seq<int>, qs: seq<seq<nat>>, free: nat)
    requires AllChained(heads, next, qs) && |next'| == |next|
    requires forall d :: 0 <= d < |qs| ==> free !in qs[d]
    requires forall x :: 0 <= x < |next| && x != free ==> next'[x] == next[x]
    ensures AllChained(heads, next', qs)
  {
    forall d | 0 <= d < |qs| ensures Chain(heads[d], next', qs[d]) {
      ChainInRange(heads[d], next, qs[d]);
      ChainFrame(heads[d], next, next', qs[d]);
    }
  }

  /** A process waits in the queue of the one it sends to, and in no other. */
  lemma OnlyCaller(nrTasks: nat, proc: seq<Proc>, callerq: seq<seq<nat>>, p: nat)
    requires CallersAgree(nrTasks, proc, callerq) && p < |proc|
    ensures forall d :: 0 <= d < |callerq| && d != proc[p].sendTo ==> p !in callerq[d]
  {
  }

  lemma NoQueues(heads: seq<int>, next: seq<int>, qs: seq<seq<nat>>)
    requires |heads| == |qs| && forall d :: 0 <= d < |qs| ==> heads[d] == NIL && qs[d] == []
    ensures AllChained(heads, next, qs)
  {
  }

  lemma BootLoopNotQueued(nrTasks: nat, nrProcs: nat, t: nat)
    requires 7 <= nrTasks && 3 <= nrProcs && t <= nrTasks + 3
    ensures forall c :: 0 <= c < 3 ==> t !in BootLoop(nrTasks, nrProcs, t).rdy[c]
  {
    BootLoopQueues(nrTasks, nrProcs, t);
  }

  class Kernel {
    const nrTasks: nat
    const size: nat

    // struct proc proc[NR_TASKS + NR_PROCS]: the records, and the links in arrays of their own
    const proc: array<Proc>
    const callerqHead: array<int>
    const sendLink: array<int>
    const nextReady: array<int>
    const nextHeld: array<int>

    const rdyHead: array<int>
    const rdyTail: array<int>
    var heldHead: int
    var heldTail: int
    var procPtr: nat
    var sigProcs: int
    var schedulerDivider: int
    var aHistory: nat
    var bHistory: nat
    var sum: nat

    ghost var callerq: seq<seq<nat>>
    ghost var rdy: seq<seq<nat>>
    ghost var held: seq<nat>
    ghost var log: seq<Delivery>

    ghost predicate Laid() {
      && 7 <= nrTasks && nrTasks + 3 <= size
      && proc.Length == callerqHead.Length == sendLink.Length == nextReady.Length == nextHeld.Length == size
      && rdyHead.Length == rdyTail.Length == 3
      && callerqHead != sendLink && callerqHead != nextReady && callerqHead != nextHeld
      && callerqHead != rdyHead && callerqHead != rdyTail
      && sendLink != nextReady && sendLink != nextHeld && sendLink != rdyHead && sendLink != rdyTail
      && nextReady != nextHeld && nextReady != rdyHead && nextReady != rdyTail
      && nextHeld != rdyHead && nextHeld != rdyTail
      && rdyHead != rdyTail
    }

    ghost predicate CallersLinked()
      reads `callerq, callerqHead, sendLink
    {
      AllChained(callerqHead[..], sendLink[..], callerq)
    }

    ghost predicate ReadyLinked()
      reads `rdy, rdyHead, rdyTail, nextReady
    {
      && |rdy| == 3
      && AllChained(rdyHead[..], nextReady[..], rdy)
      && AllTailed(rdyTail[..], rdy)
    }

    ghost predicate HeldLinked()
      reads `held, `heldHead, `heldTail, nextHeld
    {
      && NoDup(held)
      && Chain(heldHead, nextHeld[..], held)
      && (held != [] ==> heldTail == held[|held| - 1])
    }

    ghost predicate Valid()
      reads `callerq, `rdy, `held, `heldHead, `heldTail
      reads callerqHead, sendLink, rdyHead, rdyTail, nextReady, nextHeld
    {
      Laid() && CallersLinked() && ReadyLinked() && HeldLinked()
    }

    /** The abstract state this table represents. */
    ghost function Abs(): State
      reads this, proc
    {
      State(nrTasks, proc[..], callerq, rdy, procPtr, held, sigProcs, schedulerDivider,
            History(aHistory, bHistory, sum), log)
    }

    // ------------------------------------------------------------ ready queues

    method PickProc()
      requires Valid()
      modifies `procPtr
      ensures Abs() == KernelState.PickProc(old(Abs()))
    {
      assert forall c :: 0 <= c < 3 ==> Chain(rdyHead[..][c], nextReady[..], rdy[c]);
      if rdyHead[TASK_Q] != NIL {
        procPtr := rdyHead[TASK_Q];
      } else if rdyHead[SERVER_Q] != NIL {
        procPtr := rdyHead[SERVER_Q];
      } else if rdyHead[USER_Q] != NIL {
        procPtr := rdyHead[USER_Q];
      } else {
        procPtr := IdleSlot(nrTasks);
      }
    }

    /** The tail insertion that ready() spells out for tasks and servers. */
    method AppendReady(c: nat, rp: nat)
      requires Valid() && c < 3 && rp < size
      requires forall e :: 0 <= e < 3 ==> rp !in rdy[e]
      modifies `rdy, rdyHead, rdyTail, nextReady
      ensures Valid() && rdy == old(rdy)[c := old(rdy)[c] + [rp]]
    {
      ghost var heads, next, qs, q := rdyHead[..], nextReady[..], rdy, rdy[c];
      assert Chain(heads[c], next, q);
      AppendMembers(q, rp);
      ChainAppend(heads[c], next, q, rp);
      if rdyHead[c] != NIL {
        assert q != [] && rdyTail[..][c] == q[|q| - 1];
        ChainInRange(heads[c], next, q);
        nextReady[rdyTail[c]] := rp;
      } else {
        rdyHead[c] := rp;
      }
      rdyTail[c] := rp;
      nextReady[rp] := NIL;
      rdy := rdy[c := q + [rp]];
      ReplaceQueue(heads, next, qs, c, rdyHead[c], nextReady[..], q + [rp]);
      assert rdyHead[..] == heads[c := rdyHead[c]];
    }
  
    method Ready(rp: nat)
      requires Valid() && rp < size
      requires forall e :: 0 <= e < 3 ==> rp !in rdy[e]
      modifies `procPtr, `rdy, rdyHead, rdyTail, nextReady
      ensures Valid() && Abs() == KernelState.Ready(old(Abs()), rp)
    {
      assert Chain(rdyHead[..][TASK_Q], nextReady[..], rdy[TASK_Q]);
      if proc[rp].priority.Task? {
        if rdyHead[TASK_Q] == NIL {
          procPtr := rp;
        }
        AppendReady(TASK_Q, rp);
      } else if proc[rp].priority.Server? {
        AppendReady(SERVER_Q, rp);
      } else {
        PrependUser(rp);
      }
    }

    method PrependUser(rp: nat)
      requires Valid() && rp < size
      requires forall e :: 0 <= e < 3 ==> rp !in rdy[e]
      modifies `rdy, rdyHead, rdyTail, nextReady
      ensures Valid() && rdy == old(rdy)[USER_Q := [rp] + old(rdy)[USER_Q]]
    {
      ghost var heads, next, qs, q := rdyHead[..], nextReady[..], rdy, rdy[USER_Q];
      assert Chain(heads[USER_Q], next, q);
      PrependMembers(q, rp);
      ChainPrepend(heads[USER_Q], next, q, rp);
      if rdyHead[USER_Q] == NIL {
        rdyTail[USER_Q] := rp;
      }
      nextReady[rp] := rdyHead[USER_Q];
      rdyHead[USER_Q] := rp;
      rdy := rdy[USER_Q := [rp] + q];
      ReplaceQueue(heads, next, qs, USER_Q, rp, nextReady[..], [rp] + q);
      assert rdyHead[..] == heads[USER_Q := rp];
      assert q != [] ==> ([rp] + q)[|[rp] + q| - 1] == q[|q| - 1];
    }

    /** unready(): the head is simply passed over; elsewhere in the queue the predecessor has to
        be found.  A process that is not queued is left alone. */
    method Unready(rp: nat)
      requires Valid() && rp < size
      modifies `procPtr, `rdy, rdyHead, rdyTail, nextReady
      ensures Valid() && Abs() == KernelState.Unready(old(Abs()), rp)
    {
      var c := if proc[rp].priority.Task? then TASK_Q else if proc[rp].priority.Server? then SERVER_Q else USER_Q;
      ghost var q := rdy[c];
      assert Chain(rdyHead[..][c], nextReady[..], q);
      var xp := rdyHead[c];
      if xp == NIL {
        return;
      }
      RemoveMembers(q, rp);
      if xp == rp {
        DropHead(c);
        if c != TASK_Q || rp == procPtr {
          PickProc();
        }
      } else {
        UnlinkInside(c, rp);
      }
    }

    method UnlinkInside(c: nat, rp: nat)
      requires Valid() && c < 3 && rp < size && rdy[c] != [] && rdy[c][0] != rp
      modifies `rdy, rdyTail, nextReady
      ensures Valid() && rdy == if rp in old(rdy)[c] then old(rdy)[c := Remove(old(rdy)[c], rp)] else old(rdy)
    {
      assert Chain(rdyHead[..][c], nextReady[..], rdy[c]);
      var before;
      ghost var i;
      before, i := FindBefore(rdyHead[c], rp, rdy[c]);
      if before != NIL {
        RemoveAt(rdy[c], rp, i + 1);
        DropAfter(c, before, i);
      }
    }

    /** The search loop of unready(): who links to rp in the queue from head?  NIL if nobody. */
    method FindBefore(head: int, rp: nat, ghost q: seq<nat>) returns (xp: int, ghost i: nat)
      requires nextReady.Length == size && Chain(head, nextReady[..], q) && q != [] && q[0] != rp
      ensures if xp == NIL then rp !in q else i + 1 < |q| && xp == q[i] && q[i + 1] == rp
    {
      ChainLink(head, nextReady[..], q, 0);
      assert head == q[0];
      hide Chain;
      xp, i := head, 0;
      while nextReady[xp] != rp
        invariant 0 <= i < |q| && xp == q[i] && xp < size && nextReady[xp] == Successor(q, i)
        invariant forall k :: 0 <= k <= i ==> q[k] != rp
        decreases |q| - i
      {
        xp := nextReady[xp];
        if xp == NIL {
          return;
        }
        i := i + 1;
        ChainLink(head, nextReady[..], q, i);
      }
    }

    method DropHead(c: nat)
      requires Valid() && c < 3 && rdy[c] != []
      modifies `rdy, rdyHead
      ensures Valid() && rdy == old(rdy)[c := old(rdy)[c][1..]]
    {
      ghost var heads, next, qs, q := rdyHead[..], nextReady[..], rdy, rdy[c];
      assert Chain(heads[c], next, q);
      ChainTail(heads[c], next, q);
      rdyHead[c] := nextReady[rdyHead[c]];
      rdy := rdy[c := q[1..]];
      RemoveMembers(q, q[0]);
      ReplaceQueue(heads, next, qs, c, rdyHead[c], next, q[1..]);
      assert rdyHead[..] == heads[c := rdyHead[c]];
    }

    /** xp, at index i of its queue, is made to skip its successor. */
    method DropAfter(c: nat, xp: nat, ghost i: nat)
      requires Valid() && c < 3 && i + 1 < |rdy[c]| && xp == rdy[c][i]
      modifies `rdy, rdyTail, nextReady
      ensures Valid() && rdy == old(rdy)[c := Without(old(rdy)[c], i + 1)]
    {
      ghost var heads, tails, next, qs, q := rdyHead[..], rdyTail[..], nextReady[..], rdy, rdy[c];
      QueueFacts(heads, next, qs, c);
      TailFacts(tails, qs, c);
      ChainLink(heads[c], next, q, i);
      ChainLink(heads[c], next, q, i + 1);
      ChainUnlink(heads[c], next, q, i + 1);
      WithoutMembers(q, i + 1);
      LastWithout(q, i + 1);
      hide AllChained, AllTailed, Chain, NoDup;
      ghost var w := Without(q, i + 1);
      var rp := nextReady[xp];
      nextReady[xp] := nextReady[rp];
      if rdyTail[c] == rp {
        rdyTail[c] := xp;
      }
      rdy := rdy[c := w];
      ReplaceQueue(heads, next, qs, c, heads[c], nextReady[..], w);
      ReplaceTail(tails, qs, c, rdyTail[c], w);
      assert heads[c := heads[c]] == heads && rdyTail[..] == tails[c := rdyTail[c]];
    }

    /** p_flags loses bits; at zero the process is readied. */
    method Wake(p: nat, r: Proc)
      requires Valid() && p < size
      requires r.Runnable() ==> forall e :: 0 <= e < 3 ==> p !in rdy[e]
      modifies `procPtr, `rdy, proc, rdyHead, rdyTail, nextReady
      ensures Valid() && Abs() == KernelState.Wake(old(Abs()), p, r)
    {
      proc[p] := r;
      assert proc[..] == old(proc[..])[p := r];
      if proc[p].Runnable() {
        Ready(p);
      }
    }

    /** A process without flags is unreadied before it gets some. */
    method Block(p: nat, r: Proc)
      requires Valid() && p < size
      modifies `procPtr, `rdy, proc, rdyHead, rdyTail, nextReady
      ensures Valid() && Abs() == KernelState.Block(old(Abs()), p, r)
    {
      if proc[p].Runnable() {
        Unready(p);
      }
      proc[p] := r;
      assert proc[..] == old(proc[..])[p := r];
    }

    // --------------------------------------------------------------- messages

    /** The deadlock walk of mini_send(): from dest along p_sendto until the caller turns up or
        somebody is not sending.  It ends because the graph has no cycle. */
    method SendsBack(caller: nat, dest: nat) returns (locked: bool)
      requires proc.Length == size && dest < size && caller < size
      requires SendersOk(Abs())
      ensures locked <==> SendsTowards(proc[..], dest, caller)
    {
      TowardsEndOrStep(dest, caller);
      if !proc[dest].sending {
        return false;
      }
      ghost var rank :| Ranked(proc[..], rank);
      var next := proc[dest].sendTo;
      while true
        invariant 0 <= next < size
        invariant SendsTowards(proc[..], dest, caller) <==> next == caller || SendsTowards(proc[..], next, caller)
        decreases rank[next]
      {
        if next == caller {
          return true;
        }
        TowardsEndOrStep(next, caller);
        if !proc[next].sending {
          return false;
        }
        assert Falls(proc[..], rank, next);
        next := proc[next].sendTo;
      }
    }

    lemma TowardsEndOrStep(p: nat, caller: nat)
      requires proc.Length == size && p < size && SendersOk(Abs())
      ensures !proc[p].sending ==> !SendsTowards(proc[..], p, caller)
      ensures proc[p].sending ==>
        && 0 <= proc[p].sendTo < size
        && (SendsTowards(proc[..], p, caller) <==>
            proc[p].sendTo == caller || SendsTowards(proc[..], proc[p].sendTo, caller))
    {
      RealDestination(nrTasks, proc[..], callerq, p);
      if proc[p].sending {
        TowardsStep(proc[..], p, caller);
      } else {
        TowardsEnd(proc[..], p, caller);
      }
    }

    /** The walk to the last waiting sender. */
    method FindTail(head: int, ghost q: seq<nat>) returns (last: nat)
      requires sendLink.Length == size && Chain(head, sendLink[..], q) && q != []
      ensures last == q[|q| - 1] < size
    {
      ghost var i := 0;
      ChainLink(head, sendLink[..], q, 0);
      last := head;
      while sendLink[last] != NIL
        invariant 0 <= i < |q| && last == q[i] < size && sendLink[last] == Successor(q, i)
        decreases |q| - i
      {
        last := sendLink[last];
        i := i + 1;
        ChainLink(head, sendLink[..], q, i);
      }
    }

    method AppendCaller(caller: nat, dest: nat)
      requires Valid() && caller < size && dest < |callerq|
      requires forall d :: 0 <= d < |callerq| ==> caller !in callerq[d]
      modifies `callerq, callerqHead, sendLink
      ensures Valid() && callerq == old(callerq)[dest := old(callerq)[dest] + [caller]]
    {
      ghost var heads, next, qs, q := callerqHead[..], sendLink[..], callerq, callerq[dest];
      assert Chain(heads[dest], next, q);
      AppendMembers(q, caller);
      ChainAppend(heads[dest], next, q, caller);
      if callerqHead[dest] == NIL {
        callerqHead[dest] := caller;
      } else {
        var last := FindTail(callerqHead[dest], q);
        sendLink[last] := caller;
      }
      sendLink[caller] := NIL;
      callerq := callerq[dest := q + [caller]];
      ReplaceQueue(heads, next, qs, dest, callerqHead[dest], sendLink[..], q + [caller]);
      assert callerqHead[..] == heads[dest := callerqHead[dest]];
    }

    /** The destination is waiting: it gets the message and may run. */
    method HandMessage(source: nat, d: nat)
      requires Valid() && SendersOk(Abs()) && d < size && proc[d].Waiting()
      modifies `procPtr, `rdy, `log, proc, rdyHead, rdyTail, nextReady
      ensures Valid() && Abs() == KernelState.Deliver(old(Abs()), source, d)
    {
      NotQueued(nrTasks, proc[..], rdy, d);
      Wake(d, proc[d].(receiving := false));
      log := log + [Delivery(source, d)];
    }

    /** The destination is not waiting: the caller blocks at the end of its queue. */
    method QueueCaller(caller: nat, d: nat)
      requires Valid() && SendersOk(Abs()) && caller < size && d < size && !proc[caller].sending
      modifies `procPtr, `rdy, `callerq, proc, rdyHead, rdyTail, nextReady, callerqHead, sendLink
      ensures Valid() && Abs() == KernelState.Enqueue(old(Abs()), caller, d)
    {
      NotCalling(nrTasks, proc[..], callerq, caller);
      Block(caller, proc[caller].(sending := true, sendTo := d));
      AppendCaller(caller, d);
    }

    method MiniSend(caller: nat, dest: int, addressOk: bool) returns (code: Code)
      requires Valid() && SendersOk(Abs()) && MaySend(Abs(), caller, dest)
      modifies `procPtr, `rdy, `callerq, `log, proc, rdyHead, rdyTail, nextReady, callerqHead, sendLink
      ensures Valid() && Sized(old(Abs()))
      ensures (Abs(), code) == KernelState.MiniSend(old(Abs()), caller, dest, addressOk)
    {
      ChainInRange(heldHead, nextHeld[..], held);
      if proc[caller].priority.User? && !IsSys(nrTasks, dest) {
        return EBadDest;
      }
      if proc[dest].priority.Vacant? {
        return EBadDest;
      }
      if !addressOk {
        return EFault;
      }
      var locked := SendsBack(caller, dest);
      if locked {
        return ELocked;
      }
      if proc[dest].Waiting() && (proc[dest].getFrom == ANY || proc[dest].getFrom == caller) {
        HandMessage(caller, dest);
      } else {
        QueueCaller(caller, dest);
      }
      return OK;
    }

    /** The scan of mini_rec() for the first acceptable sender; NIL if there is none. */
    method FirstSender(head: int, src: int, ghost q: seq<nat>)
      returns (sender: int, previous: int, ghost i: nat)
      requires sendLink.Length == size && Chain(head, sendLink[..], q)
      ensures i == FirstMatch(q, src) <= |q|
      ensures sender == (if i < |q| then q[i] else NIL)
      ensures 0 < i < |q| ==> previous == q[i - 1]
    {
      sender, previous, i := head, NIL, 0;
      while sender != NIL
        invariant 0 <= i <= |q| && sender == (if i < |q| then q[i] else NIL)
        invariant 0 < i ==> previous == q[i - 1]
        invariant forall k :: 0 <= k < i ==> !Accepts(src, q[k])
        decreases |q| - i
      {
        ChainLink(head, sendLink[..], q, i);
        if src == ANY || src == sender {
          break;
        }
        previous, sender := sender, sendLink[sender];
        i := i + 1;
      }
      FirstMatchIs(q, src, i);
    }

    /** sender, at index i of p's caller queue, is taken out. */
    method UnlinkCaller(p: nat, sender: nat, previous: int, ghost i: nat)
      requires Valid() && p < size && i < |callerq[p]| && sender == callerq[p][i]
      requires 0 < i ==> previous == callerq[p][i - 1]
      modifies `callerq, callerqHead, sendLink
      ensures Valid() && callerq == old(callerq)[p := Without(old(callerq)[p], i)]
    {
      ghost var heads, next, qs, q := callerqHead[..], sendLink[..], callerq, callerq[p];
      assert Chain(heads[p], next, q);
      ChainLink(heads[p], next, q, i);
      WithoutMembers(q, i);
      if sender == callerqHead[p] {
        ChainTail(heads[p], next, q);
        assert i == 0 && Without(q, 0) == q[1..];
        callerqHead[p] := sendLink[sender];
      } else {
        assert i > 0;
        ChainUnlink(heads[p], next, q, i);
        sendLink[previous] := sendLink[sender];
      }
      callerq := callerq[p := Without(q, i)];
      ReplaceQueue(heads, next, qs, p, callerqHead[p], sendLink[..], Without(q, i));
      assert callerqHead[..] == heads[p := callerqHead[p]];
    }
  
    method MiniRec(p: nat, src: int)
      requires Valid() && Core(Abs()) && MayReceive(Abs(), p, src) && MmInformed(Abs())
      modifies this, proc, rdyHead, rdyTail, nextReady, callerqHead, sendLink
      ensures Valid() && Sized(old(Abs())) && Abs() == KernelState.MiniRec(old(Abs()), p, src)
    {
      CoreIsSized(Abs());
      if !proc[p].sending {
        var sender, previous;
        ghost var i;
        assert Chain(callerqHead[..][p], sendLink[..], callerq[p]);
        sender, previous, i := FirstSender(callerqHead[p], src, callerq[p]);
        if sender != NIL {
          assert callerq[p][i] in callerq[p];
          TakeFrom(p, sender, previous, i);
          return;
        }
        if proc[p].intBlocked && (src == ANY || src == HardwareSlot(nrTasks)) {
          TakeBlockedInterrupt(p);
          return;
        }
      }
      AwaitAndInform(p, src);
    }

    method TakeBlockedInterrupt(p: nat)
      requires Valid() && p < size
      modifies `log, proc
      ensures Valid() && Abs() == KernelState.TakeInterrupt(old(Abs()), p)
    {
      SetRecord(p, proc[p].(intBlocked := false));
      log := log + [Delivery(HardwareSlot(nrTasks), p)];
    }

    /** No suitable message is there: p blocks, and if it is MM it hears of waiting signals. */
    method AwaitAndInform(p: nat, src: int)
      requires Valid() && Core(Abs()) && MayReceive(Abs(), p, src) && MmInformed(Abs())
      requires !proc[p].sending ==> FirstMatch(callerq[p], src) == |callerq[p]|
      requires !proc[p].sending && proc[p].intBlocked ==> !Accepts(src, HardwareSlot(nrTasks))
      modifies this, proc, rdyHead, rdyTail, nextReady, callerqHead, sendLink
      ensures Valid() && Sized(old(Abs())) && Abs() == KernelState.MiniRec(old(Abs()), p, src)
    {
      AwaitKeepsCore(Abs(), p, src);
      CoreIsSized(Abs());
      Block(p, proc[p].(getFrom := src, receiving := true));
      if sigProcs > 0 && p == MmSlot(nrTasks) && src == ANY {
        Inform();
      }
    }

    /** p gets the message of a waiting sender, which may run again. */
    method TakeFrom(p: nat, sender: nat, previous: int, ghost i: nat)
      requires Valid() && SendersOk(Abs()) && Sized(Abs())
      requires p < size && i < |callerq[p]| && sender == callerq[p][i] && sender < size && proc[sender].sending
      requires 0 < i ==> previous == callerq[p][i - 1]
      modifies `procPtr, `rdy, `callerq, `log, proc, rdyHead, rdyTail, nextReady, callerqHead, sendLink
      ensures Valid() && Abs() == KernelState.Dequeue(old(Abs()), p, i)
    {
      NotQueued(nrTasks, proc[..], rdy, sender);
      UnlinkCaller(p, sender, previous, i);
      log := log + [Delivery(sender, p)];
      Wake(sender, proc[sender].(sending := false));
    }

    // ---------------------------------------------------------------- signals

    /** The loop of inform(). */
    method FindPending() returns (rp: nat)
      requires proc.Length == size && nrTasks <= size
      ensures rp == FirstPending(proc[..], nrTasks)
    {
      rp := nrTasks;
      while rp < size && !proc[rp].pendingFlag
        invariant nrTasks <= rp <= size && FirstPending(proc[..], rp) == FirstPending(proc[..], nrTasks)
      {
        rp := rp + 1;
      }
    }

    /** inform(): the loop finds a process, and MM takes the message. */
    method Inform()
      requires Valid() && Core(Abs()) && sigProcs > 0
      requires proc[MmSlot(nrTasks)].receiving && proc[MmSlot(nrTasks)].getFrom == ANY
      modifies this, proc, rdyHead, rdyTail, nextReady, callerqHead, sendLink
      ensures Valid() && Sized(old(Abs())) && Abs() == KernelState.Inform(old(Abs()))
    {
      hide Core, Sized, SendersOk, MaySend, CallersLinked, ReadyLinked, HeldLinked;
      hide KernelState.MiniSend, KernelState.Inform, HandOver;
      InformContract(Abs());
      var rp := FindPending();
      TellMm(rp);
      PickProc();
    }

    /** rp is counted off and its signals go to MM in a message from HARDWARE. */
    method TellMm(rp: nat)
      requires Valid() && rp < size
      requires var s := Abs().(sigProcs := sigProcs - 1);
               && SendersOk(s) && MaySend(s, HardwareSlot(nrTasks), MmSlot(nrTasks)) && Sized(s)
               && KernelState.MiniSend(s, HardwareSlot(nrTasks), MmSlot(nrTasks), true).1 == OK
      modifies this, proc, rdyHead, rdyTail, nextReady, callerqHead, sendLink
      ensures Valid()
      ensures var s := old(Abs().(sigProcs := sigProcs - 1));
              Sized(s) && Abs() == HandOver(KernelState.MiniSend(s, HardwareSlot(nrTasks), MmSlot(nrTasks), true).0, rp)
    {
      sigProcs := sigProcs - 1;
      var code := MiniSend(HardwareSlot(nrTasks), MmSlot(nrTasks), true);
      if code != OK {
        assert false; // panic("can't inform MM")
      }
      HandSignals(rp);
    }

    method HandSignals(rp: nat)
      requires Valid() && rp < size
      modifies proc
      ensures Valid() && Abs() == KernelState.HandOver(old(Abs()), rp)
    {
      proc[rp] := proc[rp].(pending := {}, pendingFlag := false, handed := proc[rp].handed + |proc[rp].pending|);
      assert proc[..] == old(proc[..])[rp := proc[rp]];
    }
  
    // --------------------------------------------------------------- sys_call

    method SysCall(call: Call, srcDest: int, addressOk: bool) returns (code: Code)
      requires Valid() && Inv(Abs()) && procPtr < size && MaySysCall(Abs(), call, srcDest)
      modifies this, proc, rdyHead, rdyTail, nextReady, callerqHead, sendLink
      ensures Valid() && Inv(Abs()) && Sized(old(Abs()))
      ensures (Abs(), code) == KernelState.SysCall(old(Abs()), call, srcDest, addressOk)
    {
      SysCallKeepsInv(Abs(), call, srcDest, addressOk);
      RunningIsReal(Abs());
      assert SlotOk(nrTasks, procPtr, proc[..][procPtr]);
      var rp := procPtr;
      if !(0 <= srcDest < size || srcDest == ANY) {
        return EBadSrc;
      }
      if proc[rp].priority.User? && !call.Both? {
        return ENoPerm;
      }
      if call.Send? || call.Both? {
        SendKeepsCoreForCall(Abs(), call, srcDest, addressOk);
        code := MiniSend(rp, srcDest, addressOk);
        if call.Send? || code != OK {
          return;
        }
      }
      MiniRec(rp, srcDest);
      code := OK;
    }

    // ------------------------------------------------------------- interrupts

    method Interrupt(task: nat, busy: bool)
      requires Valid() && Inv(Abs()) && task < size && proc[task].priority.Task?
      modifies this, proc, rdyHead, rdyTail, nextReady, nextHeld
      ensures Valid() && Inv(Abs()) && Abs() == KernelState.Interrupt(old(Abs()), task, busy)
    {
      InterruptKeepsInv(Abs(), task, busy);
      if busy {
        Hold(task);
      } else {
        Strike(task);
      }
    }

    /** The call competes with another kernel entry and joins the held queue, once. */
    method Hold(task: nat)
      requires Valid() && HeldAgree(proc[..], held) && task < size
      modifies `held, `heldHead, `heldTail, proc, nextHeld
      ensures Valid() && Abs() == KernelState.Interrupt(old(Abs()), task, true)
    {
      if !proc[task].intHeld {
        ghost var q, head, next := held, heldHead, nextHeld[..];
        proc[task] := proc[task].(intHeld := true);
        assert proc[..] == old(proc[..])[task := proc[task]];
        AppendMembers(q, task);
        ChainAppend(head, next, q, task);
        ChainInRange(head, next, q);
        if heldHead != NIL {
          nextHeld[heldTail] := task;
        } else {
          heldHead := task;
        }
        heldTail := task;
        nextHeld[task] := NIL;
        held := held + [task];
      }
    }

    method Strike(task: nat)
      requires Valid() && Inv(Abs()) && task < size && proc[task].priority.Task?
      modifies `procPtr, `rdy, `log, proc, rdyHead, rdyTail, nextReady
      ensures Valid() && Abs() == KernelState.Interrupt(old(Abs()), task, false)
    {
      if !proc[task].Waiting() || !(proc[task].getFrom == ANY || proc[task].getFrom == HardwareSlot(nrTasks)) {
        proc[task] := proc[task].(intBlocked := true);
        assert proc[..] == old(proc[..])[task := proc[task]];
        return;
      }
      NotQueued(nrTasks, proc[..], rdy, task);
      HandInterrupt(task);
    }

    /** The task gets its HARD_INT message and is readied. */
    method HandInterrupt(task: nat)
      requires Valid() && task < size && forall e :: 0 <= e < 3 ==> task !in rdy[e]
      modifies `procPtr, `rdy, `log, proc, rdyHead, rdyTail, nextReady
      ensures Valid()
      ensures var s := old(Abs());
              Abs() == KernelState.Ready(
                s.(proc := s.proc[task := s.proc[task].(receiving := false, intBlocked := false)],
                   log := s.log + [Delivery(HardwareSlot(nrTasks), task)]), task)
    {
      DeliverInterrupt(task);
      Ready(task);
    }

    method DeliverInterrupt(task: nat)
      requires Valid() && task < size
      modifies `log, proc
      ensures Valid()
      ensures var s := old(Abs());
              Abs() == s.(proc := s.proc[task := s.proc[task].(receiving := false, intBlocked := false)],
                          log := s.log + [Delivery(HardwareSlot(nrTasks), task)])
    {
      SetRecord(task, proc[task].(receiving := false, intBlocked := false));
      log := log + [Delivery(HardwareSlot(nrTasks), task)];
    }

    /** unhold() with no new arrivals. */
    method Unhold()
      requires Valid() && Inv(Abs()) && heldHead != NIL
      modifies this, proc, rdyHead, rdyTail, nextReady, nextHeld
      ensures Valid() && Inv(Abs()) && Sized(old(Abs())) && Abs() == KernelState.Unhold(old(Abs()))
    {
      ghost var s, n := Abs(), 0;
      hide Inv, Sized, Release, CallersLinked, ReadyLinked, HeldLinked;
      InvIsSized(s);
      HeldFacts();
      while true
        invariant Valid() && Inv(Abs()) && Sized(s) && n < |s.held| && Abs() == ReleaseN(s, n)
        invariant heldHead != NIL
        decreases |s.held| - n
      {
        ReleaseOnce();
        n := n + 1;
        assert Abs() == ReleaseN(s, n) && held == s.held[n..];
        HeldFacts();
        if heldHead == NIL {
          break;
        }
      }
    }

    lemma HeldFacts()
      requires HeldLinked()
      ensures heldHead == NIL <==> held == []
    {
    }

    /** One round of unhold(). */
    method ReleaseOnce()
      requires Valid() && Inv(Abs()) && heldHead != NIL
      modifies this, proc, rdyHead, rdyTail, nextReady, nextHeld
      ensures Valid() && Inv(Abs()) && old(held) != [] && old(held)[0] < size
      ensures Abs() == KernelState.Release(old(Abs()))
    {
      ReleaseLeavesInv(Abs());
      var rp := LetHeadGo();
      Interrupt(rp, false);
    }

    method LetHeadGo() returns (rp: nat)
      requires Valid() && heldHead != NIL && forall t: nat :: t in held ==> t < size
      modifies `held, `heldHead, `heldTail, proc
      ensures Valid() && old(held) != [] && rp == old(held)[0] < size && Abs() == LetGo(old(Abs()))
    {
      ghost var q, next := held, nextHeld[..];
      assert q[0] in q;
      ChainTail(heldHead, next, q);
      RemoveMembers(q, q[0]);
      rp := heldHead;
      heldHead := nextHeld[rp];
      if heldHead == NIL {
        heldTail := NIL;
      }
      proc[rp] := proc[rp].(intHeld := false);
      assert proc[..] == old(proc[..])[rp := proc[rp]];
      held := held[1..];
    }

    // -------------------------------------------------------------- scheduler

    method LockSched()
      requires Valid() && Inv(Abs())
      modifies this, rdyHead, rdyTail, nextReady
      ensures Valid() && Inv(Abs()) && Abs() == Scheduler.Sched(old(Abs()))
    {
      SchedKeepsInv(Abs());
      assert Chain(rdyHead[..][USER_Q], nextReady[..], rdy[USER_Q]);
      if rdyHead[USER_Q] == NIL {
        return;
      }
      SchedLoop();
      PickProc();
    }

    /** The while(1) loop of sched(). */
    method SchedLoop()
      requires Valid() && rdy[USER_Q] != [] && proc.Length == size && 0 <= schedulerDivider <= 100
      requires forall x: nat :: x in rdy[USER_Q] ==> x < size
      modifies `rdy, `aHistory, `bHistory, `sum, rdyHead, rdyTail, nextReady
      ensures Valid()
      ensures var (q, h) := Scheduler.SchedLoop(proc[..], old(rdy[USER_Q]), old(History(aHistory, bHistory, sum)), schedulerDivider);
              rdy == old(rdy)[USER_Q := q] && History(aHistory, bHistory, sum) == h
    {
      while true
        invariant Valid() && rdy[USER_Q] != [] && rdy == old(rdy)[USER_Q := rdy[USER_Q]]
        invariant forall x: nat :: x in rdy[USER_Q] ==> x < size
        invariant Scheduler.SchedLoop(proc[..], rdy[USER_Q], History(aHistory, bHistory, sum), schedulerDivider)
               == Scheduler.SchedLoop(proc[..], old(rdy[USER_Q]), old(History(aHistory, bHistory, sum)), schedulerDivider)
        decreases if sum > 200 then 0 else 201 - sum
      {
        var granted := TryNext();
        if granted {
          break;
        }
      }
    }

    /** One pass of that loop: rotate, and grant the new head its turn if its group is within
        quota. */
    method TryNext() returns (granted: bool)
      requires Valid() && rdy[USER_Q] != [] && proc.Length == size
      requires forall x: nat :: x in rdy[USER_Q] ==> x < size
      modifies `rdy, `aHistory, `bHistory, `sum, rdyHead, rdyTail, nextReady
      ensures Valid() && rdy == old(rdy)[USER_Q := Rotate(old(rdy)[USER_Q])]
      ensures forall x: nat :: x in rdy[USER_Q] ==> x < size
      ensures var h := Tick(old(History(aHistory, bHistory, sum)));
              var group := Group(proc[..], rdy[USER_Q]);
              && (granted <==> !OverQuota(h, group, schedulerDivider))
              && History(aHistory, bHistory, sum) == if granted then Grant(h, group) else h
    {
      TickHistory();
      RotateUser();
      assert rdy[USER_Q][0] in rdy[USER_Q];
      assert Chain(rdyHead[..][USER_Q], nextReady[..], rdy[USER_Q]);
      granted := CountTurn(proc[rdyHead[USER_Q]].priGroup);
    }

    method TickHistory()
      modifies `aHistory, `bHistory, `sum
      ensures History(aHistory, bHistory, sum) == Tick(old(History(aHistory, bHistory, sum)))
    {
      sum := sum + 1;
      if sum > 200 {
        aHistory := 0;
        bHistory := 0;
      }
    }

    method CountTurn(currentPri: nat) returns (granted: bool)
      modifies `aHistory, `bHistory
      ensures var h := old(History(aHistory, bHistory, sum));
              && (granted <==> !OverQuota(h, currentPri, schedulerDivider))
              && History(aHistory, bHistory, sum) == if granted then Grant(h, currentPri) else h
    {
      var aPri, bPri := schedulerDivider, 100 - schedulerDivider;
      if currentPri == 1 && bHistory > bPri {
        return false;
      }
      if currentPri == 0 && aHistory > aPri {
        return false;
      }
      if currentPri != 0 {
        bHistory := bHistory + 1;
      } else {
        aHistory := aHistory + 1;
      }
      return true;
    }

    method RotateUser()
      requires Valid() && rdy[USER_Q] != []
      modifies `rdy, rdyHead, rdyTail, nextReady
      ensures Valid() && rdy == old(rdy)[USER_Q := Rotate(old(rdy)[USER_Q])]
      ensures forall x: nat :: x in rdy[USER_Q] <==> x in old(rdy)[USER_Q]
    {
      ghost var heads, tails, next, qs, q := rdyHead[..], rdyTail[..], nextReady[..], rdy, rdy[USER_Q];
      QueueFacts(heads, next, qs, USER_Q);
      TailFacts(tails, qs, USER_Q);
      ChainRotate(heads[USER_Q], next, q);
      RotateMembers(q);
      hide AllChained, AllTailed, Chain, NoDup;
      nextReady[rdyTail[USER_Q]] := rdyHead[USER_Q];
      rdyTail[USER_Q] := rdyHead[USER_Q];
      rdyHead[USER_Q] := nextReady[rdyHead[USER_Q]];
      nextReady[rdyTail[USER_Q]] := NIL;
      rdy := rdy[USER_Q := Rotate(q)];
      ReplaceQueue(heads, next, qs, USER_Q, rdyHead[USER_Q], nextReady[..], Rotate(q));
      ReplaceTail(tails, qs, USER_Q, rdyTail[USER_Q], Rotate(q));
      assert rdyHead[..] == heads[USER_Q := rdyHead[USER_Q]] && rdyTail[..] == tails[USER_Q := rdyTail[USER_Q]];
    }

    // ---------------------------------------------------- system task handlers

    method SetRecord(p: nat, r: Proc)
      requires Valid() && p < size
      modifies proc
      ensures Valid() && Abs() == old(Abs()).(proc := old(proc[..])[p := r])
    {
      proc[p] := r;
      assert proc[..] == old(proc[..])[p := r];
    }

    method CauseSig(p: nat, sig: nat)
      requires Valid() && Inv(Abs()) && p < size && proc[p].priority.User?
      modifies this, proc, rdyHead, rdyTail, nextReady, callerqHead, sendLink
      ensures Valid() && Inv(Abs()) && Sized(old(Abs())) && Abs() == SystemTask.CauseSig(old(Abs()), p, sig)
    {
      CauseSigKeepsInv(Abs(), p, sig);
      hide Inv, Core, Sized, FirstSignal, CallersLinked, ReadyLinked, HeldLinked;
      var r := proc[p];
      if sig in r.pending {
        return;
      }
      if r.pendingFlag {
        SetRecord(p, r.(pending := r.pending + {sig}, pendCount := r.pendCount + 1));
        return;
      }
      InvIsCore(Abs());
      SignalFirst(p, sig);
    }

    /** The first signal stops the process, and MM is told if it is free. */
    method SignalFirst(p: nat, sig: nat)
      requires Valid() && Core(Abs()) && p < size && proc[p].priority.User? && !proc[p].pendingFlag
      modifies this, proc, rdyHead, rdyTail, nextReady, callerqHead, sendLink
      ensures Valid() && Sized(FirstSignal(old(Abs()), p, sig))
      ensures var s1 := FirstSignal(old(Abs()), p, sig);
              var mm := s1.proc[MmSlot(nrTasks)];
              Abs() == if !mm.receiving || mm.getFrom != ANY then s1 else KernelState.Inform(s1)
    {
      FirstSignalKeepsCore(Abs(), p, sig);
      SignalsCounted(Abs());
      hide Core, Sized;
      StopForSignal(p, sig);
      InformIfFree();
    }

    method InformIfFree()
      requires Valid() && Core(Abs()) && sigProcs > 0
      modifies this, proc, rdyHead, rdyTail, nextReady, callerqHead, sendLink
      ensures Valid() && Sized(old(Abs()))
      ensures var mm := old(Abs()).proc[MmSlot(nrTasks)];
              Abs() == if !mm.receiving || mm.getFrom != ANY then old(Abs()) else KernelState.Inform(old(Abs()))
    {
      CoreIsSized(Abs());
      if !proc[MmSlot(nrTasks)].receiving || proc[MmSlot(nrTasks)].getFrom != ANY {
        return;
      }
      Inform();
    }

    method StopForSignal(p: nat, sig: nat)
      requires Valid() && p < size
      modifies `procPtr, `rdy, `sigProcs, proc, rdyHead, rdyTail, nextReady
      ensures Valid() && Abs() == FirstSignal(old(Abs()), p, sig)
    {
      Block(p, Signalled(proc[p], sig));
      sigProcs := sigProcs + 1;
    }

    method DoEndSig(p: nat) returns (code: Code)
      requires Valid() && Inv(Abs()) && TaskRuns(Abs()) && MayEndSig(Abs(), p)
      modifies `procPtr, `rdy, proc, rdyHead, rdyTail, nextReady
      ensures Valid() && Inv(Abs()) && (Abs(), code) == EndSig(old(Abs()), p)
    {
      hide CallersAgree, Acyclic, NoMissed, HeldAgree, Dispatched, Shape;
      EndSigKeepsInv(Abs(), p);
      assert SignalsOk(proc[..][p]);
      var r := proc[p];
      if r.priority.Vacant? {
        return EBadProc;
      }
      if r.pendCount != 0 {
        var r1 := r.(pendCount := r.pendCount - 1, handed := r.handed - 1);
        if r1.pendCount == 0 {
          NotQueued(nrTasks, proc[..], rdy, p);
          Wake(p, r1.(sigPending := false));
        } else {
          SetRecord(p, r1);
        }
      }
      return OK;
    }

    method DoFork(parent: nat, child: nat, pid: nat)
      requires Valid() && Inv(Abs()) && MayFork(Abs(), parent, child)
      modifies `callerq, proc, callerqHead, sendLink, nextReady, nextHeld
      ensures Valid() && Inv(Abs()) && Abs() == Fork(old(Abs()), parent, child, pid)
    {
      ForkKeepsInv(Abs(), parent, child, pid);
      VacantHasNoCallers(nrTasks, proc[..], callerq, child);
      assert Chain(callerqHead[..][parent], sendLink[..], callerq[parent]);
      assert Chain(callerqHead[..][child], sendLink[..], callerq[child]);
      assert SlotOk(nrTasks, child, proc[..][child]);
      NotCalling(nrTasks, proc[..], callerq, child);
      VacantNotReady(nrTasks, proc[..], rdy, child);
      CopyLinks(parent, child);
      SetRecord(child, Child(proc[parent], pid));
    }

    /** The links are part of what the slot copy of do_fork() overwrites. */
    method CopyLinks(parent: nat, child: nat)
      requires Valid() && parent < size && child < size
      requires callerqHead[parent] == callerqHead[child] && callerq[parent] == callerq[child] == []
      requires forall d :: 0 <= d < |callerq| ==> child !in callerq[d]
      requires child !in held && forall c :: 0 <= c < 3 ==> child !in rdy[c]
      modifies `callerq, callerqHead, sendLink, nextReady, nextHeld
      ensures Valid() && callerq == old(callerq)[child := old(callerq)[parent]]
    {
      ghost var sends, readies, helds := sendLink[..], nextReady[..], nextHeld[..];
      callerqHead[child] := callerqHead[parent];
      assert callerqHead[..] == old(callerqHead[..]);
      sendLink[child] := sendLink[parent];
      nextReady[child] := nextReady[parent];
      nextHeld[child] := nextHeld[parent];
      callerq := callerq[child := callerq[parent]];
      FrameQueues(callerqHead[..], sends, sendLink[..], callerq, child);
      FrameQueues(rdyHead[..], readies, nextReady[..], rdy, child);
      ChainInRange(heldHead, helds, held);
      ChainFrame(heldHead, helds, nextHeld[..], held);
    }

    method DoNewMap(k: int) returns (code: Code)
      requires Valid() && Inv(Abs()) && TaskRuns(Abs())
      modifies `procPtr, `rdy, proc, rdyHead, rdyTail, nextReady
      ensures Valid() && Inv(Abs()) && (Abs(), code) == NewMap(old(Abs()), k)
    {
      NewMapKeepsInv(Abs(), k);
      if !(0 <= k < size) {
        return EBadProc;
      }
      var wasRunnable := proc[k].Runnable();
      if !wasRunnable {
        NotQueued(nrTasks, proc[..], rdy, k);
        Wake(k, proc[k].(noMap := false));
      }
      return OK;
    }

    method DoExec(p: nat, traced: bool, sigtrap: nat)
      requires Valid() && Inv(Abs()) && TaskRuns(Abs()) && MayExec(Abs(), p)
      modifies this, proc, rdyHead, rdyTail, nextReady, callerqHead, sendLink
      ensures Valid() && Inv(Abs()) && Sized(old(Abs())) && Abs() == Exec(old(Abs()), p, traced, sigtrap)
    {
      ExecKeepsInv(Abs(), p, traced, sigtrap);
      CauseSigFrame(Abs(), p, sigtrap);
      if traced {
        CauseSig(p, sigtrap);
      }
      NotQueued(nrTasks, proc[..], rdy, p);
      Wake(p, proc[p].(receiving := false));
    }

    method DoTrace(p: nat, request: TraceRequest) returns (code: Code)
      requires Valid() && Inv(Abs()) && TaskRuns(Abs()) && MayTrace(Abs(), p, request)
      modifies `procPtr, `rdy, proc, rdyHead, rdyTail, nextReady
      ensures Valid() && Inv(Abs()) && (Abs(), code) == Trace(old(Abs()), p, request)
    {
      TraceKeepsInv(Abs(), p, request);
      if proc[p].priority.Vacant? {
        return EIo;
      }
      if request.T_STOP? {
        Block(p, proc[p].(stopped := true));
      } else {
        NotQueued(nrTasks, proc[..], rdy, p);
        Wake(p, proc[p].(stopped := false));
      }
      return OK;
    }

    method DoChangePriGroup(pid: int) returns (answer: int)
      requires Valid() && Inv(Abs())
      modifies proc
      ensures Valid() && Inv(Abs()) && (Abs(), answer) == ChangePriGroup(old(Abs()), pid)
    {
      ChangePriGroupKeepsInv(Abs(), pid);
      hide Inv, FirstPid, CallersLinked, ReadyLinked, HeldLinked;
      answer := FlipGroup(pid);
    }

    method FlipGroup(pid: int) returns (answer: int)
      requires Valid()
      modifies proc
      ensures Valid() && (Abs(), answer) == ChangePriGroup(old(Abs()), pid)
    {
      hide FirstPid, CallersLinked, ReadyLinked, HeldLinked;
      var i := FindPid(pid);
      if i == size - nrTasks {
        return -1;
      }
      if proc[i].priGroup == 0 {
        SetRecord(i, proc[i].(priGroup := 1));
        return 1;
      }
      SetRecord(i, proc[i].(priGroup := 0));
      return 0;
    }

    method DoSetScheduler(arg: int, pid: int) returns (answer: int)
      requires Valid() && Inv(Abs())
      modifies `schedulerDivider
      ensures Valid() && Inv(Abs()) && (Abs(), answer) == SetScheduler(old(Abs()), arg, pid)
    {
      SetSchedulerKeepsInv(Abs(), arg, pid);
      answer := SetDivider(arg, pid);
    }

    method SetDivider(arg: int, pid: int) returns (answer: int)
      requires Laid()
      modifies `schedulerDivider
      ensures (Abs(), answer) == SetScheduler(old(Abs()), arg, pid)
    {
      var i := FindPid(pid);
      if i == size - nrTasks {
        return -1;
      }
      if proc[i].priGroup != 0 {
        return -2;
      }
      if arg >= 100 || arg <= 0 {
        return -3;
      }
      schedulerDivider := arg;
      return 0;
    }

    /** The loops over proc[0..NR_PROCS) by which a caller is found by its pid. */
    method FindPid(pid: int) returns (i: nat)
      requires proc.Length == size && nrTasks <= size
      ensures i == FirstPid(proc[..], size - nrTasks, pid)
    {
      i := 0;
      while i < size - nrTasks && proc[i].pid != pid
        invariant 0 <= i <= size - nrTasks
        invariant FirstPidFrom(proc[..], size - nrTasks, pid, i) == FirstPid(proc[..], size - nrTasks, pid)
      {
        i := i + 1;
      }
    }
  
    // -------------------------------------------------------------------- exit

    method DoXit(rc: nat)
      requires Valid() && Inv(Abs()) && MayExit(Abs(), rc)
      modifies this, proc, rdyHead, rdyTail, nextReady, callerqHead, sendLink
      ensures Valid() && Inv(Abs()) && Abs() == Exit(old(Abs()), rc)
    {
      ExitKeepsInv(Abs(), rc);
      OnlyCaller(nrTasks, proc[..], callerq, rc);
      if proc[rc].Runnable() {
        Unready(rc);
      }
      if proc[rc].sending {
        LeaveCallers(rc, proc[rc].sendTo);
      }
      FreeSlot(rc);
    }

    method FreeSlot(rc: nat)
      requires Valid() && rc < size
      modifies `sigProcs, proc
      ensures Valid()
      ensures Abs() == old(Abs()).(proc := old(proc[..])[rc := Gone(old(proc[rc]))],
                                   sigProcs := old(sigProcs) - if old(proc[rc]).pendingFlag then 1 else 0)
    {
      if proc[rc].pendingFlag {
        sigProcs := sigProcs - 1;
      }
      proc[rc] := Gone(proc[rc]);
      assert proc[..] == old(proc[..])[rc := proc[rc]];
    }

    /** The loop of do_xit() over all slots: only d's caller queue holds rc, and the walk stops
        early when rc is found at its front. */
    method LeaveCallers(rc: nat, ghost d: nat)
      requires Valid() && rc < size && d < size
      requires forall e :: 0 <= e < |callerq| && e != d ==> rc !in callerq[e]
      modifies `callerq, callerqHead, sendLink
      ensures Valid() && callerq == old(callerq)[d := Remove(old(callerq)[d], rc)]
    {
      var rp := 0;
      ghost var before, after := callerq, callerq[d := Remove(callerq[d], rc)];
      while rp < size
        invariant 0 <= rp <= size && Valid()
        invariant callerq == if d < rp then after else before
      {
        assert Chain(callerqHead[..][rp], sendLink[..], callerq[rp]);
        if rp != d {
          RemoveAbsent(callerq[rp], rc);
        }
        if callerqHead[rp] != NIL {
          var front := callerqHead[rp] == rc;
          LeaveQueue(rp, rc);
          if front {
            break;
          }
        }
        rp := rp + 1;
      }
    }

    /** rc, wherever it is in rp's caller queue, is taken out. */
    method LeaveQueue(rp: nat, rc: nat)
      requires Valid() && rp < size && callerq[rp] != []
      modifies `callerq, callerqHead, sendLink
      ensures Valid() && callerq == old(callerq)[rp := Remove(old(callerq)[rp], rc)]
    {
      ghost var q := callerq[rp];
      assert Chain(callerqHead[..][rp], sendLink[..], q);
      if callerqHead[rp] == rc {
        RemoveAt(q, rc, 0);
        UnlinkCaller(rp, rc, NIL, 0);
      } else {
        var np;
        ghost var i;
        np, i := FindCallerBefore(callerqHead[rp], rc, q);
        if np == NIL {
          RemoveAbsent(q, rc);
        } else {
          RemoveAt(q, rc, i + 1);
          UnlinkCaller(rp, rc, np, i + 1);
        }
      }
    }

    /** The inner walk of do_xit(): who links to rc in the queue from head?  NIL if nobody. */
    method FindCallerBefore(head: int, rc: nat, ghost q: seq<nat>) returns (np: int, ghost i: nat)
      requires sendLink.Length == size && Chain(head, sendLink[..], q) && q != [] && q[0] != rc
      ensures if np == NIL then rc !in q else i + 1 < |q| && np == q[i] && q[i + 1] == rc
    {
      np, i := head, 0;
      ChainLink(head, sendLink[..], q, 0);
      assert head == q[0];
      hide Chain;
      while sendLink[np] != NIL
        invariant 0 <= i < |q| && np == q[i] && np < size && sendLink[np] == Successor(q, i)
        invariant forall k :: 0 <= k <= i ==> q[k] != rc
        decreases |q| - i
      {
        var xp := sendLink[np];
        if xp == rc {
          return;
        }
        np := xp;
        i := i + 1;
        ChainLink(head, sendLink[..], q, i);
      }
      np := NIL;
    }

    // -------------------------------------------------------------------- boot

    /** The boot loop of main() and the first choice of a process to run. */
    constructor (nrTasks: nat, nrProcs: nat)
      requires 7 <= nrTasks && 3 <= nrProcs
      ensures Valid() && Inv(Abs()) && Abs() == Boot(nrTasks, nrProcs)
      ensures fresh(proc) && fresh(callerqHead) && fresh(sendLink) && fresh(nextReady) && fresh(nextHeld)
      ensures fresh(rdyHead) && fresh(rdyTail)
    {
      this.nrTasks := nrTasks;
      size := nrTasks + nrProcs;
      proc := new Proc[nrTasks + nrProcs](_ => FreshProc(Vacant, 0));
      callerqHead := new int[nrTasks + nrProcs](_ => NIL);
      sendLink := new int[nrTasks + nrProcs](_ => NIL);
      nextReady := new int[nrTasks + nrProcs](_ => NIL);
      nextHeld := new int[nrTasks + nrProcs](_ => NIL);
      rdyHead := new int[3](_ => NIL);
      rdyTail := new int[3](_ => NIL);
      heldHead, heldTail, procPtr := NIL, NIL, IdleSlot(nrTasks);
      sigProcs, schedulerDivider, aHistory, bHistory, sum := 0, 50, 0, 0, 0;
      callerq := seq(nrTasks + nrProcs, _ => []);
      rdy, held, log := [[], [], []], [], [];
      new;
      NoQueues(callerqHead[..], sendLink[..], callerq);
      NoQueues(rdyHead[..], nextReady[..], rdy);
      BootFrom(nrProcs);
    }

    method BootFrom(nrProcs: nat)
      requires Valid() && 7 <= nrTasks && 3 <= nrProcs && size == nrTasks + nrProcs
      requires proc[..] == seq(size, _ => FreshProc(Vacant, 0)) && callerq == seq(size, _ => [])
      requires rdy == [[], [], []] && held == [] && log == [] && procPtr == IdleSlot(nrTasks)
      requires sigProcs == 0 && schedulerDivider == 50 && aHistory == bHistory == sum == 0
      modifies `procPtr, `rdy, proc, rdyHead, rdyTail, nextReady
      ensures Valid() && Inv(Abs()) && Abs() == Boot(nrTasks, nrProcs)
    {
      StartSlots(nrProcs);
      NameInit();
      PickProc();
      BootKeepsInv(nrTasks, nrProcs);
    }

    method StartSlots(nrProcs: nat)
      requires Valid() && 3 <= nrProcs && size == nrTasks + nrProcs && Abs() == BootLoop(nrTasks, nrProcs, 0)
      modifies `procPtr, `rdy, proc, rdyHead, rdyTail, nextReady
      ensures Valid() && Abs() == BootLoop(nrTasks, nrProcs, nrTasks + 3)
    {
      var t := 0;
      while t < nrTasks + 3
        invariant 0 <= t <= nrTasks + 3 && Valid() && Abs() == BootLoop(nrTasks, nrProcs, t)
      {
        hide BootRound, CallersLinked, ReadyLinked, HeldLinked;
        BootLoopNotQueued(nrTasks, nrProcs, t);
        StartSlot(t);
        t := t + 1;
      }
    }

    /** One round of the boot loop. */
    method StartSlot(t: nat)
      requires Valid() && t < size && forall c :: 0 <= c < 3 ==> t !in rdy[c]
      modifies `procPtr, `rdy, proc, rdyHead, rdyTail, nextReady
      ensures Valid() && Abs() == BootRound(old(Abs()), t)
    {
      SetRecord(t, FreshProc(BootPriority(nrTasks, t), 0));
      if t != IdleSlot(nrTasks) && t != HardwareSlot(nrTasks) {
        Ready(t);
      }
    }

    method NameInit()
      requires Valid()
      modifies proc
      ensures Valid() && Abs() == Named(old(Abs()))
    {
      hide CallersLinked, ReadyLinked, HeldLinked;
      SetRecord(InitSlot(nrTasks), proc[InitSlot(nrTasks)].(pid := 1));
      SetRecord(IdleSlot(nrTasks), proc[IdleSlot(nrTasks)].(priority := IdleClass));
    }
  }
}
