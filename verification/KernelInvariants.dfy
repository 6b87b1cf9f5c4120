/** What holds between any two kernel entries. */
module KernelInvariants {
  import opened Queues
  import opened KernelState

  // -------------------------------------------------------------- the slots

  /** Which flags and fields a slot may use, by the kind of process in it. */
  ghost predicate SlotOk(nrTasks: nat, p: nat, r: Proc) {
    && (p == IdleSlot(nrTasks) <==> r.priority.IdleClass?)
    && (p < nrTasks && p != IdleSlot(nrTasks) <==> r.priority.Task?)
    && (IsSys(nrTasks, p) <==> r.priority.Server?)
    && (r.priority.Task? || r.priority.IdleClass? ==> !r.stopped)
    && (!r.priority.User? ==> !r.noMap && r.pending == {} && r.pendCount == 0 && r.handed == 0)
    && (!r.priority.Task? ==> !r.intBlocked && !r.intHeld)
    && (p == IdleSlot(nrTasks) || p == HardwareSlot(nrTasks) || r.priority.Vacant? ==> r.Runnable())
    && r.priGroup <= 1
  }

  ghost predicate Shape(nrTasks: nat, proc: seq<Proc>) {
    && 7 <= nrTasks && nrTasks + 3 <= |proc|
    && forall p :: 0 <= p < |proc| ==> SlotOk(nrTasks, p, proc[p])
  }

  // ------------------------------------------------------------ ready queues

  /** A process that belongs on a ready queue: live, without flags, not IDLE or HARDWARE. */
  ghost predicate CanRun(nrTasks: nat, p: nat, r: Proc) {
    && (r.priority.Task? || r.priority.Server? || r.priority.User?)
    && p != HardwareSlot(nrTasks)
    && r.Runnable()
  }

  /** Each ready queue holds, once each, exactly the runnable processes of its class. */
  ghost predicate ReadyAgree(nrTasks: nat, proc: seq<Proc>, rdy: seq<seq<nat>>) {
    && |rdy| == 3
    && (forall c :: 0 <= c < 3 ==> NoDup(rdy[c]))
    && (forall c, p: nat {:trigger p in rdy[c]} :: 0 <= c < 3 && p in rdy[c] ==>
          p < |proc| && CanRun(nrTasks, p, proc[p]) && QClass(proc[p]) == c)
    && (forall p :: 0 <= p < |proc| && CanRun(nrTasks, p, proc[p]) ==> p in rdy[QClass(proc[p])])
  }

  /** The head of the highest-priority non-empty queue runs, IDLE when there is none. */
  ghost predicate Dispatched(s: State) {
    && 7 <= s.nrTasks && |s.rdy| == 3
    && s.procPtr == Top(s)
  }

  // ----------------------------------------------------------- caller queues

  /** A process is in the caller queue of d, once, exactly when it is blocked sending to d. */
  ghost predicate CallersAgree(nrTasks: nat, proc: seq<Proc>, callerq: seq<seq<nat>>) {
    && |callerq| == |proc|
    && (forall d :: 0 <= d < |callerq| ==> NoDup(callerq[d]))
    && (forall d, q: nat {:trigger q in callerq[d]} :: 0 <= d < |callerq| && q in callerq[d] ==>
          q < |proc| && proc[q].sending && proc[q].sendTo == d)
    && (forall q :: 0 <= q < |proc| && proc[q].sending ==> SendingOk(nrTasks, proc, callerq, q))
  }

  ghost predicate SendingOk(nrTasks: nat, proc: seq<Proc>, callerq: seq<seq<nat>>, q: nat)
    requires q < |proc| == |callerq|
  {
    var d := proc[q].sendTo;
    0 <= d < |proc| && d != HardwareSlot(nrTasks) && !proc[d].priority.Vacant? && q in callerq[d]
  }

  /** rank falls along every "is sending to" edge. */
  ghost predicate Ranked(proc: seq<Proc>, rank: seq<nat>) {
    && |rank| == |proc|
    && forall p :: 0 <= p < |proc| && proc[p].sending ==> Falls(proc, rank, p)
  }

  ghost predicate Falls(proc: seq<Proc>, rank: seq<nat>, p: nat)
    requires p < |proc| == |rank|
  {
    0 <= proc[p].sendTo < |proc| && rank[proc[p].sendTo] < rank[p]
  }

  /** The graph of p -> p_sendto over the sending processes has no cycle. */
  ghost predicate Acyclic(proc: seq<Proc>) {
    exists rank: seq<nat> :: Ranked(proc, rank)
  }

  /** A receiver that is not itself sending has nothing at hand that it would accept, and a
      process in the middle of a send-and-receive waits for its reply from whom it sends to. */
  ghost predicate NoMissed(nrTasks: nat, proc: seq<Proc>, callerq: seq<seq<nat>>) {
    && |callerq| == |proc| && 1 <= nrTasks
    && (forall p :: 0 <= p < |proc| && proc[p].receiving ==> ReceiverOk(nrTasks, proc[p], callerq[p]))
  }

  ghost predicate ReceiverOk(nrTasks: nat, r: Proc, callers: seq<nat>)
    requires 1 <= nrTasks
  {
    if r.sending then r.getFrom == r.sendTo
    else
      && (forall q: nat :: q in callers ==> !Accepts(r.getFrom, q))
      && (r.intBlocked ==> !Accepts(r.getFrom, HardwareSlot(nrTasks)))
  }

  // ----------------------------------------------------- signals, interrupts

  ghost function PendingSlots(proc: seq<Proc>): set<int> {
    set p | 0 <= p < |proc| && proc[p].pendingFlag
  }

  ghost predicate SignalsOk(r: Proc) {
    && (r.pendingFlag <==> r.pending != {})
    && (r.sigPending <==> r.pendCount > 0)
    && r.pendCount == |r.pending| + r.handed
  }

  /** sig_procs counts the processes with signals MM has not heard of, and p_pendcount the
      signals of a process that are pending or handed to MM and not yet ended. */
  ghost predicate SignalsAgree(proc: seq<Proc>, sigProcs: int) {
    && sigProcs == |PendingSlots(proc)|
    && forall p :: 0 <= p < |proc| ==> SignalsOk(proc[p])
  }

  /** MM never waits for new work while a process has signals for it. */
  ghost predicate MmInformed(s: State) {
    && s.nrTasks < |s.proc|
    && (s.proc[MmSlot(s.nrTasks)].receiving && s.proc[MmSlot(s.nrTasks)].getFrom == ANY ==> s.sigProcs == 0)
  }

  /** The held queue holds, once each, exactly the tasks marked p_int_held. */
  ghost predicate HeldAgree(proc: seq<Proc>, held: seq<nat>) {
    && NoDup(held)
    && (forall t: nat :: t in held ==> t < |proc| && proc[t].intHeld)
    && (forall t :: 0 <= t < |proc| && proc[t].intHeld ==> t in held)
  }

  ghost predicate SchedulerOk(s: State) {
    0 < s.divider < 100
  }

  /** Everything that also holds in the middle of a kernel entry. */
  ghost predicate Core(s: State) {
    && Shape(s.nrTasks, s.proc)
    && ReadyAgree(s.nrTasks, s.proc, s.rdy)
    && CallersAgree(s.nrTasks, s.proc, s.callerq)
    && Acyclic(s.proc)
    && NoMissed(s.nrTasks, s.proc, s.callerq)
    && SignalsAgree(s.proc, s.sigProcs)
    && HeldAgree(s.proc, s.held)
    && SchedulerOk(s)
  }

  ghost predicate Inv(s: State) {
    Core(s) && Dispatched(s) && MmInformed(s)
  }

  lemma CoreIsSized(s: State)
    requires Core(s)
    ensures Sized(s)
  {
  }

  lemma InvIsSized(s: State)
    requires Inv(s)
    ensures Sized(s)
  {
  }

  /** The running process is a slot of the table, and one that may run. */
  lemma RunningIsReal(s: State)
    requires Core(s) && Dispatched(s)
    ensures s.procPtr < |s.proc| && s.proc[s.procPtr].Runnable()
    ensures s.procPtr == IdleSlot(s.nrTasks) || (CanRun(s.nrTasks, s.procPtr, s.proc[s.procPtr])
            && s.rdy[QClass(s.proc[s.procPtr])] != [] && s.rdy[QClass(s.proc[s.procPtr])][0] == s.procPtr)
  {
    assert SlotOk(s.nrTasks, IdleSlot(s.nrTasks), s.proc[IdleSlot(s.nrTasks)]);
    if s.rdy[TASK_Q] != [] {
      assert s.rdy[TASK_Q][0] in s.rdy[TASK_Q];
    } else if s.rdy[SERVER_Q] != [] {
      assert s.rdy[SERVER_Q][0] in s.rdy[SERVER_Q];
    } else if s.rdy[USER_Q] != [] {
      assert s.rdy[USER_Q][0] in s.rdy[USER_Q];
    }
  }

  // ------------------------------------------ how the clauses move, one by one

  /** A record with the same priority, unblocked by Wake, is queued again. */
  lemma WakeReady(s: State, p: nat, r: Proc)
    requires Shape(s.nrTasks, s.proc) && ReadyAgree(s.nrTasks, s.proc, s.rdy)
    requires p < |s.proc| && p != HardwareSlot(s.nrTasks) && p != IdleSlot(s.nrTasks)
    requires r.priority == s.proc[p].priority && !r.priority.Vacant? && !r.priority.IdleClass?
    requires r.Runnable() ==> !s.proc[p].Runnable()
    requires !r.Runnable() ==> !s.proc[p].Runnable()
    ensures ReadyAgree(s.nrTasks, Wake(s, p, r).proc, Wake(s, p, r).rdy)
  {
    var s1 := s.(proc := s.proc[p := r]);
    var c := QClass(r);
    assert p !in s.rdy[c];
    if r.Runnable() {
      AppendMembers(s.rdy[c], p);
      PrependMembers(s.rdy[c], p);
    }
  }

  /** Top stays what runs when a lower class gains a member. */
  lemma WakeDispatched(s: State, p: nat, r: Proc)
    requires Dispatched(s) && p < |s.proc|
    requires QClass(r) == TASK_Q || s.rdy[TASK_Q] != [] || s.rdy[SERVER_Q] != []
    ensures Dispatched(Wake(s, p, r))
  {
  }

  lemma BlockReady(s: State, p: nat, r: Proc)
    requires Shape(s.nrTasks, s.proc) && ReadyAgree(s.nrTasks, s.proc, s.rdy)
    requires p < |s.proc| && !r.Runnable()
    requires r.priority == s.proc[p].priority
    ensures ReadyAgree(s.nrTasks, Block(s, p, r).proc, Block(s, p, r).rdy)
  {
    var c := QClass(r);
    if s.proc[p].Runnable() {
      RemoveMembers(s.rdy[c], p);
      if p !in s.rdy[c] {
        RemoveAbsent(s.rdy[c], p);
      }
    }
  }

  lemma BlockDispatched(s: State, p: nat, r: Proc)
    requires Shape(s.nrTasks, s.proc) && ReadyAgree(s.nrTasks, s.proc, s.rdy) && p < |s.proc|
    requires Dispatched(s) || (s.proc[p].Runnable() && QClass(s.proc[p]) != TASK_Q
                               && s.rdy[QClass(s.proc[p])] != [] && s.rdy[QClass(s.proc[p])][0] == p)
    ensures Dispatched(Block(s, p, r))
  {
  }
}
