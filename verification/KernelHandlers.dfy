/** What interrupts and the handlers of the system task have done when they return. */
module KernelHandlers {
  import opened Queues
  import opened KernelState
  import opened KernelInvariants
  import opened KernelMessages
  import opened SystemTask
  import opened KernelSteps
  import opened KernelRuns
  import opened KernelOutcomes

  // -------------------------------------------------------------- interrupts

  /** HARDWARE's message is in task t's buffer; t waits no more and is at the end of the task queue.
      Nothing else has changed. */
  ghost predicate Struck(s: State, t: nat, s': State)
    requires t < |s.proc| && 1 <= s.nrTasks
  {
    && s' == s.(proc := s.proc[t := s.proc[t].(receiving := false, intBlocked := false)],
                log := s.log + [Delivery(HardwareSlot(s.nrTasks), t)], rdy := s'.rdy, procPtr := s'.procPtr)
    && Readied(s, s', t) && s'.proc[t].Runnable()
  }

  /** An interrupt for t: while it competes with another entry it joins the end of the held queue,
      once; else it strikes a task that waits for it, and is recorded for any other. */
  lemma InterruptOutcome(s: State, t: nat, busy: bool)
    requires Inv(s) && Enabled(s, EInterrupt(t, busy))
    ensures var s' := Interrupt(s, t, busy);
      && s' == Step(s, EInterrupt(t, busy))
      && if busy then
           if t in s.held then s' == s
           else s' == s.(proc := s.proc[t := s.proc[t].(intHeld := true)], held := s.held + [t])
         else if WaitsFor(s.proc[t], HardwareSlot(s.nrTasks)) then Struck(s, t, s')
         else s' == s.(proc := s.proc[t := s.proc[t].(intBlocked := true)])
  {
    assert SlotOk(s.nrTasks, t, s.proc[t]);
  }

  /** Does an interrupt strike task t, or is it recorded? */
  predicate Strikes(s: State, t: nat) {
    t < |s.proc| && WaitsFor(s.proc[t], HardwareSlot(s.nrTasks))
  }

  /** The messages that interrupts for the tasks in q lead to. */
  function Messages(s: State, q: seq<nat>): seq<Delivery>
    requires 1 <= s.nrTasks
  {
    if q == [] then []
    else
      var t := q[|q| - 1];
      Messages(s, q[..|q| - 1]) + if Strikes(s, t) then [Delivery(HardwareSlot(s.nrTasks), t)] else []
  }

  /** The record of a held task that has been let go. */
  function LetGoOf(r: Proc, struck: bool): Proc {
    if struck then r.(intHeld := false, receiving := false, intBlocked := false)
    else r.(intHeld := false, intBlocked := true)
  }

  /** From s to s', the held interrupts in q were served, in this order: each struck its task if it
      waited for it and was recorded otherwise.  No other record, caller queue or counter changed. */
  ghost predicate Served(s: State, q: seq<nat>, s': State)
    requires 1 <= s.nrTasks
  {
    && s'.log == s.log + Messages(s, q)
    && s' == s.(proc := s'.proc, rdy := s'.rdy, procPtr := s'.procPtr, held := s'.held, log := s'.log)
    && |s'.proc| == |s.proc|
    && forall t: nat :: t < |s.proc| ==> s'.proc[t] == if t in q then LetGoOf(s.proc[t], Strikes(s, t)) else s.proc[t]
  }

  lemma {:induction false} ReleaseServes(s: State, n: nat)
    requires Inv(s) && Sized(s) && n <= |s.held|
    ensures Served(s, s.held[..n], ReleaseN(s, n))
    decreases n
  {
    hide Inv, Release;
    if n > 0 {
      ReleaseServes(s, n - 1);
      ReleaseNKeepsInv(s, n - 1);
      var s1 := ReleaseN(s, n - 1);
      ReleaseOne(s1);
      HeldOnce(s, n - 1);
      ServedNext(s, s.held[..n - 1], s.held[n - 1], s1, Release(s1));
      assert s.held[..n] == s.held[..n - 1] + [s.held[n - 1]];
    }
  }

  lemma HeldOnce(s: State, n: nat)
    requires Inv(s) && n < |s.held|
    ensures s.held[n] !in s.held[..n] && s.held[n] < |s.proc|
  {
    assert s.held[n] in s.held;
  }

  lemma ServedNext(s: State, q: seq<nat>, t: nat, s1: State, s2: State)
    requires 1 <= s.nrTasks && Served(s, q, s1) && t !in q && t < |s.proc|
    requires Served(s1, [t], s2)
    ensures Served(s, q + [t], s2)
  {
    assert (q + [t])[..|q|] == q;
    assert [t][..0] == [] && Messages(s1, []) == [];
    assert Strikes(s1, t) == Strikes(s, t);
  }

  /** One round of unhold() serves the head of the held queue. */
  lemma ReleaseOne(s: State)
    requires Inv(s) && s.held != []
    ensures s.held[0] < |s.proc| && Served(s, [s.held[0]], Release(s))
  {
    var t := s.held[0];
    assert t in s.held;
    assert [t][..0] == [] && Messages(s, []) == [];
  }

  /** unhold() serves all held interrupts. */
  lemma UnholdOutcome(s: State)
    requires Inv(s) && Enabled(s, EUnhold)
    ensures Unhold(s) == Step(s, EUnhold) && Unhold(s).held == [] && Served(s, s.held, Unhold(s))
  {
    ReleaseServes(s, |s.held|);
    assert s.held[..|s.held|] == s.held;
  }

  /** One round of it. */
  lemma ReleaseOutcome(s: State)
    requires Inv(s) && Enabled(s, ERelease)
    ensures Release(s) == Step(s, ERelease) && Release(s).held == s.held[1..] && Served(s, [s.held[0]], Release(s))
  {
    ReleaseOne(s);
  }

  // ------------------------------------------------------------------ signals

  /** A new signal for p is put among its pending ones and counted. */
  function Added(r: Proc, sig: nat): Proc {
    r.(pending := r.pending + {sig}, pendCount := r.pendCount + 1, pendingFlag := true, sigPending := true)
  }

  /** MM waits for anything. */
  predicate MmFree(s: State)
    requires s.nrTasks < |s.proc|
  {
    s.proc[MmSlot(s.nrTasks)].receiving && s.proc[MmSlot(s.nrTasks)].getFrom == ANY
  }

  /** p has its first pending signal, and is ready no more. */
  ghost predicate Stopped(s: State, p: nat, sig: nat, s': State)
    requires p < |s.proc|
  {
    && s' == s.(proc := s.proc[p := Added(s.proc[p], sig)], sigProcs := s.sigProcs + 1, rdy := s'.rdy, procPtr := s'.procPtr)
    && Unreadied(s, s', p)
  }

  /** ... and MM has been told of that signal. */
  ghost predicate StoppedAndTold(s: State, p: nat, sig: nat, s': State)
    requires p < |s.proc|
  {
    exists s1: State :: Stopped(s, p, sig, s1) && 1 <= s1.nrTasks < |s1.proc| && InformedOf(s1, p, s')
  }

  /** cause_sig: a signal that is pending already is dropped.  A new one is added; if it is the first
      pending one of p, p is stopped, and MM is told of it at once if it waits for anything. */
  lemma CauseSigOutcome(s: State, p: nat, sig: nat)
    requires Inv(s) && Enabled(s, ECauseSig(p, sig))
    ensures s.nrTasks < |s.proc|
    ensures var s', r := CauseSig(s, p, sig), s.proc[p];
      && s' == Step(s, ECauseSig(p, sig))
      && if sig in r.pending then s' == s
         else if r.pending != {} then s' == s.(proc := s.proc[p := Added(r, sig)])
         else if MmFree(s) then StoppedAndTold(s, p, sig, s')
         else Stopped(s, p, sig, s')
  {
    assert SignalsOk(s.proc[p]);
    if sig !in s.proc[p].pending && s.proc[p].pending == {} {
      FirstSignalOutcome(s, p, sig);
    }
  }

  lemma FirstSignalOutcome(s: State, p: nat, sig: nat)
    requires Inv(s) && Sized(s) && p < |s.proc| && s.proc[p].priority.User? && s.proc[p].pending == {}
    ensures if MmFree(s) then StoppedAndTold(s, p, sig, CauseSig(s, p, sig)) else Stopped(s, p, sig, CauseSig(s, p, sig))
  {
    assert SignalsOk(s.proc[p]) && SlotOk(s.nrTasks, p, s.proc[p]);
    var s1 := FirstSignal(s, p, sig);
    FirstSignalKeepsCore(s, p, sig);
    BlockUnreadies(s, p, Signalled(s.proc[p], sig));
    assert Stopped(s, p, sig, s1);
    if MmFree(s) {
      CoreIsSized(s1);
      OnlyPending(s, p);
      InformOutcome(s1);
      var q: nat :| InformedOf(s1, q, Inform(s1));
      assert q == p;
    }
  }

  /** MM waits for anything only when nothing is pending. */
  lemma OnlyPending(s: State, p: nat)
    requires Inv(s) && s.nrTasks < |s.proc| && MmFree(s)
    ensures s.sigProcs == 0 && forall q :: 0 <= q < |s.proc| ==> !s.proc[q].pendingFlag
  {
    forall q | 0 <= q < |s.proc|
      ensures !s.proc[q].pendingFlag
    {
      assert q in PendingSlots(s.proc) <==> s.proc[q].pendingFlag;
    }
  }

  /** SYS_ENDSIG ends exactly one of p's signals.  What is pending stays pending, SIG_PENDING stays
      exactly as long as a signal is left, and after the last one p is ready if nothing else holds
      it.  The answer is an error exactly for a process that has gone. */
  lemma EndSigOutcome(s: State, p: nat)
    requires Inv(s) && Enabled(s, EEndSig(p))
    ensures var (s', code) := EndSig(s, p);
      var r := s.proc[p];
      && s' == Step(s, EEndSig(p))
      && (code == EBadProc <==> r.priority.Vacant?) && (code == OK <==> !r.priority.Vacant?)
      && if r.priority.Vacant? || r.pendCount == 0 then s' == s
         else
           && s' == s.(proc := s.proc[p := s'.proc[p]], rdy := s'.rdy)
           && s'.proc[p] == r.(pendCount := r.pendCount - 1, sigPending := r.pendCount > 1, handed := s'.proc[p].handed)
           && (if r.pendCount > 1 then s'.rdy == s.rdy else Readied(s, s', p))
  {
    assert SlotOk(s.nrTasks, p, s.proc[p]) && SignalsOk(s.proc[p]);
  }

  // ------------------------------------------------- processes come and go

  /** SYS_NEWMAP lifts the bar on a process without a map, and only that. */
  lemma NewMapOutcome(s: State, k: int)
    requires Inv(s) && Enabled(s, ENewMap(k))
    ensures var (s', code) := NewMap(s, k);
      && s' == Step(s, ENewMap(k))
      && (code == EBadProc <==> !(0 <= k < |s.proc|)) && (code == OK <==> 0 <= k < |s.proc|)
      && if !(0 <= k < |s.proc|) || s.proc[k].Runnable() then s' == s
         else s' == s.(proc := s.proc[k := s.proc[k].(noMap := false)], rdy := s'.rdy) && Readied(s, s', k)
  {
    TaskQueued(s);
    if 0 <= k < |s.proc| {
      assert SlotOk(s.nrTasks, k, s.proc[k]);
    }
    hide Inv;
  }

  /** What a child has of its own at fork. */
  predicate IsChild(r: Proc, parent: Proc, pid: nat) {
    && r.pid == pid && r.priGroup == pid % 2
    && r.noMap && !r.stopped
    && !r.pendingFlag && !r.sigPending && r.pending == {} && r.pendCount == 0 && r.handed == 0
    && r == parent.(pid := r.pid, priGroup := r.priGroup, noMap := r.noMap, stopped := r.stopped,
                    pendingFlag := r.pendingFlag, sigPending := r.sigPending, pending := r.pending,
                    pendCount := r.pendCount, handed := r.handed)
  }

  /** A forked child is its parent over again, but for its pid, the group that goes with it, signals,
      tracing and the missing map, and it is on no queue.  Nothing else changes. */
  lemma ForkOutcome(s: State, parent: nat, child: nat, pid: nat)
    requires Inv(s) && Enabled(s, EFork(parent, child, pid))
    ensures var s' := Fork(s, parent, child, pid);
      && s' == Step(s, EFork(parent, child, pid))
      && |s'.proc| == |s.proc| && IsChild(s'.proc[child], s.proc[parent], pid)
      && s' == s.(proc := s.proc[child := s'.proc[child]])
      && child < |s'.callerq| && s'.callerq[child] == []
  {
    VacantHasNoCallers(s.nrTasks, s.proc, s.callerq, child);
    assert Fork(s, parent, child, pid).callerq == s.callerq;
    hide Inv;
  }

  /** When its map is set the child is ready in front of all users, unless it waits for a message as
      its parent does. */
  lemma ForkThenNewMap(s: State, parent: nat, child: nat, pid: nat)
    requires Inv(s) && TaskRuns(s) && Enabled(s, EFork(parent, child, pid))
    ensures var s1 := Fork(s, parent, child, pid);
      |s1.proc| == |s.proc| && |s1.rdy| == 3 &&
      var s2 := NewMap(s1, child).0;
      && Inv(s2)
      && s2 == s1.(proc := s1.proc[child := s1.proc[child].(noMap := false)], rdy := s2.rdy) && Readied(s1, s2, child)
      && (child in s2.rdy[USER_Q] <==> !s.proc[parent].receiving)
  {
    ForkKeepsInv(s, parent, child, pid);
    ForkOutcome(s, parent, child, pid);
    var s1 := Fork(s, parent, child, pid);
    assert SlotOk(s.nrTasks, parent, s.proc[parent]);
    NewMapKeepsInv(s1, child);
    InvIsSized(s1);
    hide Inv, NewMap, Fork;
    NewMapOutcome(s1, child);
    UserIsReady(NewMap(s1, child).0, child);
  }

  /** A user is ready exactly when it has no flag. */
  lemma UserIsReady(s: State, p: nat)
    requires Inv(s) && p < |s.proc| && s.proc[p].priority.User?
    ensures |s.rdy| == 3 && (p in s.rdy[USER_Q] <==> s.proc[p].Runnable())
  {
    assert SlotOk(s.nrTasks, p, s.proc[p]);
  }

  /** After exec the process waits for MM's answer no more, and is ready if nothing else holds it;
      traced, it first got the trap. */
  lemma ExecOutcome(s: State, p: nat, traced: bool, sigtrap: nat)
    requires Inv(s) && Enabled(s, EExec(p, traced, sigtrap))
    ensures Enabled(s, ECauseSig(p, sigtrap))
    ensures var s', s1 := Exec(s, p, traced, sigtrap), if traced then Step(s, ECauseSig(p, sigtrap)) else s;
      && s' == Step(s, EExec(p, traced, sigtrap))
      && |s1.proc| == |s.proc|
      && s' == s1.(proc := s1.proc[p := s1.proc[p].(receiving := false)], rdy := s'.rdy) && Readied(s1, s', p)
      && (traced ==> !s'.proc[p].Runnable())
  {
    CauseSigFrame(s, p, sigtrap);
    SignalStops(s, p, sigtrap);
    assert s.proc[p].priority.User?;
    hide Inv, CauseSig;
  }

  /** A signalled process does not run until MM has ended the signal. */
  lemma SignalStops(s: State, p: nat, sig: nat)
    requires Inv(s) && Sized(s) && p < |s.proc| && s.proc[p].priority.User?
    ensures var s' := CauseSig(s, p, sig);
      && |s'.proc| == |s.proc| && s'.proc[p].pendCount > 0 && s'.proc[p].sigPending && !s'.proc[p].Runnable()
      && |s'.rdy| == 3 && forall c :: 0 <= c < 3 ==> p !in s'.rdy[c]
  {
    RunningIsReal(s);
    CauseSigKeepsInv(s, p, sig);
    CauseSigOutcome(s, p, sig);
    assert SignalsOk(s.proc[p]);
    BlockedIsUnqueued(CauseSig(s, p, sig), p);
  }

  /** An exited process is gone: its slot is free, no queue knows it, its pending signals are not
      counted, and every other record and queue member is as before. */
  lemma ExitOutcome(s: State, p: nat)
    requires Inv(s) && Enabled(s, EExit(p))
    ensures var s', r := Exit(s, p), s.proc[p];
      && s' == Step(s, EExit(p))
      && s' == s.(proc := s.proc[p := s'.proc[p]], callerq := s'.callerq, rdy := s'.rdy, procPtr := s'.procPtr,
                  sigProcs := s.sigProcs - if r.pending != {} then 1 else 0)
      && s'.proc[p].priority.Vacant? && s'.proc[p].Runnable() && s'.proc[p].pendCount == 0 && s'.proc[p].pid == r.pid
      && Unreadied(s, s', p)
      && |s'.callerq| == |s.callerq|
      && forall d :: 0 <= d < |s.callerq| ==>
           if p in s.callerq[d] then LeftOnly(s.callerq[d], s'.callerq[d], p) else s'.callerq[d] == s.callerq[d]
  {
    var r, s' := s.proc[p], Exit(s, p);
    assert SlotOk(s.nrTasks, p, r) && SignalsOk(r);
    BlockUnreadies(s, p, Gone(r));
    if r.sending {
      assert SendingOk(s.nrTasks, s.proc, s.callerq, p);
      var q := s.callerq[r.sendTo];
      var i: nat :| i < |q| && q[i] == p;
      RemoveAt(q, p, i);
      assert LeftOnly(q, s'.callerq[r.sendTo], p);
    }
  }

  /** T_STOP sets the stop, T_RESUME and T_STEP clear it, and the process is off its ready queue, or
      in its place there, exactly as its flags say; the answer is EIO exactly for a free slot. */
  lemma TraceOutcome(s: State, p: nat, request: TraceRequest)
    requires Inv(s) && Enabled(s, ETrace(p, request))
    ensures var (s', code) := Trace(s, p, request);
      var r := s.proc[p];
      && s' == Step(s, ETrace(p, request))
      && (code == EIo <==> r.priority.Vacant?) && (code == OK <==> !r.priority.Vacant?)
      && if r.priority.Vacant? then s' == s
         else
           && s' == s.(proc := s.proc[p := r.(stopped := request.T_STOP?)], rdy := s'.rdy, procPtr := s'.procPtr)
           && (if request.T_STOP? then Unreadied(s, s', p) else Readied(s, s', p))
  {
    BlockUnreadies(s, p, s.proc[p].(stopped := true));
    assert SlotOk(s.nrTasks, p, s.proc[p]);
  }

  /** What the two group calls on behalf of p come to, and that they change nothing else. */
  lemma QuotaOutcome(s: State, p: nat, arg: int)
    requires Inv(s) && p < |s.proc|
    requires Enabled(s, EChangePriGroup(s.proc[p].pid)) && Enabled(s, ESetScheduler(arg, s.proc[p].pid))
    ensures var pid := s.proc[p].pid;
      var flipped, adjusted := Step(s, EChangePriGroup(pid)), Step(s, ESetScheduler(arg, pid));
      && |flipped.proc| == |s.proc| && flipped == s.(proc := flipped.proc)
      && (forall q {:trigger flipped.proc[q]} :: 0 <= q < |s.proc| ==>
            flipped.proc[q] == if Answers(s, q, pid) then s.proc[q].(priGroup := 1 - s.proc[q].priGroup) else s.proc[q])
      && adjusted == s.(divider := if 0 < arg < 100 && exists q :: AnswersIn(s, q, pid, 0) then arg else s.divider)
  {
    ChangePriGroupIff(s, p);
    SetSchedulerIff(s, arg, p);
    FirstPidAnswers(s, s.proc[p].pid);
    GroupsOk(s.nrTasks, s.proc);
    ChangePriGroupFlips(s, s.proc[p].pid);
    hide Inv, Answers, AnswersIn, ChangePriGroup, SetScheduler;
  }
}
