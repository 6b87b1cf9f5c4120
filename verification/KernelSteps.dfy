/** Interrupts, the scheduler and the system task's handlers keep the invariants. */
module KernelSteps {
  import opened Queues
  import opened KernelState
  import opened KernelInvariants
  import opened KernelMessages
  import opened Scheduler
  import opened SystemTask

  // -------------------------------------------------------------- interrupts

  lemma ShapeFrame(nrTasks: nat, proc: seq<Proc>, t: nat, r: Proc)
    requires Shape(nrTasks, proc) && t < |proc| && SlotOk(nrTasks, t, r)
    ensures Shape(nrTasks, proc[t := r])
  {
  }

  lemma HoldKeepsInv(s: State, t: nat)
    requires Inv(s) && t < |s.proc| && s.proc[t].priority.Task?
    ensures Inv(Interrupt(s, t, true))
  {
    if !s.proc[t].intHeld {
      var r := s.proc[t].(intHeld := true);
      var s' := Interrupt(s, t, true);
      AppendMembers(s.held, t);
      assert SlotOk(s.nrTasks, t, s.proc[t]) && SignalsOk(s.proc[t]);
      hide Shape, ReadyAgree, CallersAgree, Acyclic, SignalsAgree;
      ShapeFrame(s.nrTasks, s.proc, t, r);
      SameRunReady(s.nrTasks, s.proc, s.rdy, t, r);
      assert SameSends(s.proc, s'.proc);
      CallersFrame(s.nrTasks, s.proc, s'.proc, s.callerq);
      AcyclicFrame(s.proc, s'.proc);
      SignalsFrame(s.proc, s.sigProcs, t, r);
      MissedFrame(s.nrTasks, s.proc, s.callerq, t, r);
    }
  }

  /** An interrupt that competes with nothing is recorded or delivered. */
  lemma StrikeKeepsInv(s: State, t: nat)
    requires Inv(s) && t < |s.proc| && s.proc[t].priority.Task?
    ensures Inv(Interrupt(s, t, false))
  {
    var r := s.proc[t];
    assert SlotOk(s.nrTasks, t, r) && SignalsOk(r);
    hide CallersAgree, Acyclic, SignalsAgree, HeldAgree;
    if !WaitsFor(r, HardwareSlot(s.nrTasks)) {
      RecordChange(s, Interrupt(s, t, false), t, r.(intBlocked := true));
    } else {
      var r' := r.(receiving := false, intBlocked := false);
      var s' := Interrupt(s, t, false);
      assert s' == Wake(s, t, r').(log := s'.log);
      WakeReady(s, t, r');
      WakeDispatched(s, t, r');
      RecordChange(s, s', t, r');
    }
  }

  lemma InterruptKeepsInv(s: State, t: nat, busy: bool)
    requires Inv(s) && t < |s.proc| && s.proc[t].priority.Task?
    ensures Inv(Interrupt(s, t, busy))
  {
    if busy { HoldKeepsInv(s, t); } else { StrikeKeepsInv(s, t); }
  }

  /** Letting the head of the held queue go, before it interrupts again. */
  function LetGo(s: State): State
    requires s.held != [] && s.held[0] < |s.proc|
  {
    var t := s.held[0];
    s.(proc := s.proc[t := s.proc[t].(intHeld := false)], held := s.held[1..])
  }

  lemma LetGoHeld(s: State)
    requires HeldAgree(s.proc, s.held) && s.held != []
    ensures s.held[0] < |s.proc| && HeldAgree(LetGo(s).proc, LetGo(s).held)
  {
    var t := s.held[0];
    assert t in s.held;
    RemoveMembers(s.held, t);
    assert s.held[1..] == Remove(s.held, t);
  }

  lemma ReleaseLeavesInv(s: State)
    requires Inv(s) && s.held != []
    ensures s.held[0] < |s.proc| && s.proc[s.held[0]].priority.Task? && Inv(LetGo(s))
  {
    var t := s.held[0];
    assert t in s.held;
    var r := s.proc[t].(intHeld := false);
    var s1 := LetGo(s);
    assert SlotOk(s.nrTasks, t, s.proc[t]) && SignalsOk(s.proc[t]);
    LetGoHeld(s);
    hide Shape, ReadyAgree, CallersAgree, Acyclic, SignalsAgree, HeldAgree;
    ShapeFrame(s.nrTasks, s.proc, t, r);
    SameRunReady(s.nrTasks, s.proc, s.rdy, t, r);
    assert SameSends(s.proc, s1.proc);
    CallersFrame(s.nrTasks, s.proc, s1.proc, s.callerq);
    AcyclicFrame(s.proc, s1.proc);
    SignalsFrame(s.proc, s.sigProcs, t, r);
    MissedFrame(s.nrTasks, s.proc, s.callerq, t, r);
  }

  lemma ReleaseKeepsInv(s: State)
    requires Inv(s) && s.held != []
    ensures s.held[0] < |s.proc| && Inv(Release(s)) && Release(s).held == s.held[1..]
  {
    ReleaseLeavesInv(s);
    StrikeKeepsInv(LetGo(s), s.held[0]);
  }

  lemma {:induction false} ReleaseNKeepsInv(s: State, n: nat)
    requires Inv(s) && n <= |s.held|
    ensures Sized(s) && Inv(ReleaseN(s, n))
    decreases n
  {
    CoreIsSized(s);
    if n > 0 {
      ReleaseNKeepsInv(s, n - 1);
      ReleaseKeepsInv(ReleaseN(s, n - 1));
    }
  }

  /** unhold() keeps the invariants and, with no new arrivals, empties the held queue in as many
      rounds as it was long. */
  lemma UnholdKeepsInv(s: State)
    requires Inv(s)
    ensures Sized(s) && Inv(Unhold(s)) && Unhold(s).held == []
  {
    CoreIsSized(s);
    ReleaseNKeepsInv(s, |s.held|);
  }

  // --------------------------------------------------------------- scheduler

  lemma SchedKeepsInv(s: State)
    requires Inv(s)
    ensures Inv(Sched(s))
  {
    var q := s.rdy[USER_Q];
    if q != [] {
      SchedLoopMembers(s.proc, q, s.history, s.divider);
      var q' := SchedLoop(s.proc, q, s.history, s.divider).0;
      SameMembersReady(s.nrTasks, s.proc, s.rdy, USER_Q, q');
    }
  }

  lemma SameMembersReady(nrTasks: nat, proc: seq<Proc>, rdy: seq<seq<nat>>, c: nat, q: seq<nat>)
    requires ReadyAgree(nrTasks, proc, rdy) && c < 3 && NoDup(q)
    requires forall y: nat :: y in q <==> y in rdy[c]
    ensures ReadyAgree(nrTasks, proc, rdy[c := q])
  {
  }

  // ---------------------------------------------------------------- handlers

  /** Handlers run as part of a task. */
  ghost predicate TaskRuns(s: State) {
    && s.procPtr < |s.proc| && s.proc[s.procPtr].priority.Task?
  }

  lemma TaskQueued(s: State)
    requires Inv(s) && TaskRuns(s)
    ensures s.rdy[TASK_Q] != []
  {
    RunningIsReal(s);
    assert SlotOk(s.nrTasks, s.procPtr, s.proc[s.procPtr]);
  }

  /** An unblocking that touches no queue of senders. */
  lemma WakeKeepsInv(s: State, p: nat, r: Proc)
    requires Inv(s) && s.rdy[TASK_Q] != [] && p < |s.proc|
    requires !s.proc[p].Runnable() && r.priority == s.proc[p].priority
    requires SlotOk(s.nrTasks, p, r) && SameSend(s.proc[p], r) && SignalsOk(r)
    requires r.pendingFlag == s.proc[p].pendingFlag && r.intHeld == s.proc[p].intHeld
    requires r.receiving ==> ReceiverOk(s.nrTasks, r, s.callerq[p])
    requires p == MmSlot(s.nrTasks) ==> (r.receiving ==> s.proc[p].receiving && s.proc[p].getFrom == r.getFrom)
    ensures Inv(Wake(s, p, r))
  {
    assert SlotOk(s.nrTasks, p, s.proc[p]);
    WakeReady(s, p, r);
    WakeDispatched(s, p, r);
    RecordChange(s, Wake(s, p, r), p, r);
  }

  lemma NewMapKeepsInv(s: State, k: int)
    requires Inv(s) && TaskRuns(s)
    ensures Inv(NewMap(s, k).0)
  {
    if 0 <= k < |s.proc| && !s.proc[k].Runnable() {
      TaskQueued(s);
      assert SlotOk(s.nrTasks, k, s.proc[k]) && SignalsOk(s.proc[k]);
      WakeKeepsInv(s, k, s.proc[k].(noMap := false));
    }
  }

  /** MM ends a signal it was told of; for a process that has gone nothing happens. */
  ghost predicate MayEndSig(s: State, p: nat) {
    && p < |s.proc|
    && (s.proc[p].priority.Vacant? ||
        (s.proc[p].priority.User? && (s.proc[p].pendCount == 0 || s.proc[p].handed > 0)))
  }

  lemma EndSigKeepsInv(s: State, p: nat)
    requires Inv(s) && TaskRuns(s) && MayEndSig(s, p)
    ensures Inv(EndSig(s, p).0)
  {
    var r := s.proc[p];
    if !r.priority.Vacant? && r.pendCount != 0 {
      TaskQueued(s);
      assert SlotOk(s.nrTasks, p, r) && SignalsOk(r);
      var r1 := r.(pendCount := r.pendCount - 1, handed := r.handed - 1);
      if r1.pendCount == 0 {
        WakeKeepsInv(s, p, r1.(sigPending := false));
      } else {
        var s' := EndSig(s, p).0;
        HandOverReady(s.nrTasks, s.proc, s.rdy, p, r1);
        RecordChange(s, s', p, r1);
      }
    }
  }

  /** A process is traced only as a server or user, and resumed only when it is not running. */
  ghost predicate MayTrace(s: State, p: nat, request: TraceRequest) {
    && p < |s.proc|
    && (s.proc[p].priority.Vacant? || s.proc[p].priority.Server? || s.proc[p].priority.User?)
    && (!request.T_STOP? ==> s.proc[p].priority.Vacant? || !s.proc[p].Runnable())
  }

  lemma TraceKeepsInv(s: State, p: nat, request: TraceRequest)
    requires Inv(s) && TaskRuns(s) && MayTrace(s, p, request)
    ensures Inv(Trace(s, p, request).0)
  {
    var r := s.proc[p];
    if !r.priority.Vacant? {
      TaskQueued(s);
      assert SlotOk(s.nrTasks, p, r) && SignalsOk(r);
      if request.T_STOP? {
        BlockReady(s, p, r.(stopped := true));
        BlockDispatched(s, p, r.(stopped := true));
        RecordChange(s, Trace(s, p, request).0, p, r.(stopped := true));
      } else {
        WakeKeepsInv(s, p, r.(stopped := false));
      }
    }
  }

  /** Resuming a process that is running already would queue it twice: the agreement of flags
      and ready queues survives T_RESUME and T_STEP exactly when the process was not running. */
  lemma ResumeIffBlocked(s: State, p: nat, request: TraceRequest)
    requires Inv(s) && TaskRuns(s) && p < |s.proc| && !request.T_STOP?
    requires s.proc[p].priority.Server? || s.proc[p].priority.User?
    ensures Inv(Trace(s, p, request).0) <==> !s.proc[p].Runnable()
  {
    var r := s.proc[p];
    assert SlotOk(s.nrTasks, p, r);
    if r.Runnable() {
      var c := QClass(r);
      var i :| 0 <= i < |s.rdy[c]| && s.rdy[c][i] == p;
      var q := Trace(s, p, request).0.rdy[c];
      if c == SERVER_Q {
        assert q[i] == q[|q| - 1] == p;
      } else {
        assert q[0] == q[i + 1] == p;
      }
    } else {
      TraceKeepsInv(s, p, request);
    }
  }

  // ----------------------------------------------------------------- signals

  /** One more signal for a process MM is to be told about already. */
  lemma AnotherSignal(s: State, p: nat, sig: nat)
    requires Inv(s) && p < |s.proc| && s.proc[p].priority.User? && s.proc[p].pendingFlag
    requires sig !in s.proc[p].pending
    ensures Sized(s) && Inv(CauseSig(s, p, sig))
  {
    CoreIsSized(s);
    var r := s.proc[p];
    var r1 := r.(pending := r.pending + {sig}, pendCount := r.pendCount + 1);
    assert SlotOk(s.nrTasks, p, r) && SignalsOk(r);
    HandOverReady(s.nrTasks, s.proc, s.rdy, p, r1);
    RecordChange(s, CauseSig(s, p, sig), p, r1);
  }

  /** The first signal stops the process until MM has dealt with it. */
  lemma FirstSignalKeepsCore(s: State, p: nat, sig: nat)
    requires Core(s) && p < |s.proc| && s.proc[p].priority.User? && !s.proc[p].pendingFlag
    ensures Core(FirstSignal(s, p, sig))
  {
    var r := s.proc[p];
    var r1 := Signalled(r, sig);
    assert SlotOk(s.nrTasks, p, r) && SignalsOk(r);
    assert r.receiving ==> ReceiverOk(s.nrTasks, r, s.callerq[p]);
    BlockReady(s, p, r1);
    FirstSignalCount(s.proc, s.sigProcs, p, sig);
    RecordChangeAny(s, FirstSignal(s, p, sig), p, r1);
  }

  lemma FirstSignalCount(proc: seq<Proc>, sigProcs: int, p: nat, sig: nat)
    requires SignalsAgree(proc, sigProcs) && p < |proc| && !proc[p].pendingFlag
    ensures SignalsAgree(proc[p := Signalled(proc[p], sig)], sigProcs + 1)
  {
    assert SignalsOk(proc[p]);
    assert PendingSlots(proc[p := Signalled(proc[p], sig)]) == PendingSlots(proc) + {p};
  }

  lemma FirstSignalKeepsInv(s: State, p: nat, sig: nat)
    requires Inv(s) && p < |s.proc| && s.proc[p].priority.User? && !s.proc[p].pendingFlag
    requires sig !in s.proc[p].pending
    ensures Sized(s) && Inv(CauseSig(s, p, sig))
  {
    CoreIsSized(s);
    var s1 := FirstSignal(s, p, sig);
    FirstSignalKeepsCore(s, p, sig);
    BlockDispatched(s, p, Signalled(s.proc[p], sig));
    CoreIsSized(s1);
    assert |PendingSlots(s.proc)| >= 0;
    var mm := s1.proc[MmSlot(s.nrTasks)];
    if mm.receiving && mm.getFrom == ANY {
      InformKeepsCore(s1);
      assert CauseSig(s, p, sig) == Inform(s1);
    }
  }

  lemma CauseSigKeepsInv(s: State, p: nat, sig: nat)
    requires Inv(s) && p < |s.proc| && s.proc[p].priority.User?
    ensures Sized(s) && Inv(CauseSig(s, p, sig))
  {
    CoreIsSized(s);
    if sig !in s.proc[p].pending {
      if s.proc[p].pendingFlag {
        AnotherSignal(s, p, sig);
      } else {
        FirstSignalKeepsInv(s, p, sig);
      }
    }
  }

  /** What cause_sig() leaves alone: whether the process is receiving, and the ready tasks. */
  ghost predicate SignalFrame(s: State, s': State, p: nat)
    requires p < |s.proc| && |s.rdy| == 3
  {
    && |s'.proc| == |s.proc| && s'.nrTasks == s.nrTasks && |s'.rdy| == 3
    && s'.proc[p].receiving == s.proc[p].receiving && s'.proc[p].priority == s.proc[p].priority
    && s'.rdy[TASK_Q] == s.rdy[TASK_Q]
  }

  lemma InformFrame(s: State, p: nat)
    requires Core(s) && s.sigProcs > 0 && p < |s.proc| && s.proc[p].priority.User?
    requires s.proc[MmSlot(s.nrTasks)].receiving && s.proc[MmSlot(s.nrTasks)].getFrom == ANY
    ensures Sized(s) && SignalFrame(s, Inform(s), p)
  {
    InformSucceeds(s);
    MmTakesHardware(s);
  }

  lemma CauseSigFrame(s: State, p: nat, sig: nat)
    requires Inv(s) && p < |s.proc| && s.proc[p].priority.User?
    ensures Sized(s) && SignalFrame(s, CauseSig(s, p, sig), p)
  {
    CoreIsSized(s);
    if sig !in s.proc[p].pending && !s.proc[p].pendingFlag {
      var s1 := FirstSignal(s, p, sig);
      FirstSignalKeepsCore(s, p, sig);
      assert |PendingSlots(s.proc)| >= 0;
      var mm := s1.proc[MmSlot(s.nrTasks)];
      if mm.receiving && mm.getFrom == ANY {
        InformFrame(s1, p);
      }
    }
  }

  // ------------------------------------------------------ fork, exec and exit

  /** The contract of do_exec: a user process that waits for MM's reply. */
  ghost predicate MayExec(s: State, p: nat) {
    p < |s.proc| && s.proc[p].priority.User? && s.proc[p].receiving
  }

  lemma ExecKeepsInv(s: State, p: nat, traced: bool, sigtrap: nat)
    requires Inv(s) && TaskRuns(s) && MayExec(s, p)
    ensures Sized(s) && Inv(Exec(s, p, traced, sigtrap))
  {
    CauseSigKeepsInv(s, p, sigtrap);
    CauseSigFrame(s, p, sigtrap);
    TaskQueued(s);
    var s1 := if traced then CauseSig(s, p, sigtrap) else s;
    assert SlotOk(s1.nrTasks, p, s1.proc[p]) && SignalsOk(s1.proc[p]);
    WakeKeepsInv(s1, p, s1.proc[p].(receiving := false));
  }

  lemma VacantHasNoCallers(nrTasks: nat, proc: seq<Proc>, callerq: seq<seq<nat>>, d: nat)
    requires CallersAgree(nrTasks, proc, callerq) && d < |proc| && proc[d].priority.Vacant?
    ensures callerq[d] == []
  {
    HeadIsMember(callerq[d]);
  }

  /** The contract of do_fork. */
  ghost predicate MayFork(s: State, parent: nat, child: nat) {
    && parent < |s.proc| == |s.callerq| && child < |s.proc|
    && s.proc[parent].priority.User? && !s.proc[parent].sending && s.callerq[parent] == []
    && s.proc[child].priority.Vacant?
  }

  lemma ForkKeepsInv(s: State, parent: nat, child: nat, pid: nat)
    requires Inv(s) && MayFork(s, parent, child)
    ensures Inv(Fork(s, parent, child, pid))
  {
    var r := Child(s.proc[parent], pid);
    var s' := Fork(s, parent, child, pid);
    assert SlotOk(s.nrTasks, child, s.proc[child]) && SlotOk(s.nrTasks, parent, s.proc[parent]);
    assert SlotOk(s.nrTasks, child, r);
    VacantHasNoCallers(s.nrTasks, s.proc, s.callerq, child);
    assert s'.callerq == s.callerq;
    assert SignalsOk(s.proc[child]) && SignalsOk(r);
    forall q | 0 <= q < |s'.proc| && s'.proc[q].sending ensures SendingOk(s.nrTasks, s'.proc, s'.callerq, q) {
      assert SendingOk(s.nrTasks, s.proc, s.callerq, q);
    }
    AcyclicFrame(s.proc, s'.proc);
    MissedFrame(s.nrTasks, s.proc, s.callerq, child, r);
    SignalsFrame(s.proc, s.sigProcs, child, r);
    HeldFrame(s.proc, s.held, child, r);
    ForkReady(s.nrTasks, s.proc, s.rdy, child, r);
  }

  lemma ForkReady(nrTasks: nat, proc: seq<Proc>, rdy: seq<seq<nat>>, child: nat, r: Proc)
    requires ReadyAgree(nrTasks, proc, rdy) && child < |proc| && proc[child].priority.Vacant? && !r.Runnable()
    ensures ReadyAgree(nrTasks, proc[child := r], rdy)
  {
  }

  /** The contract of do_xit: nobody is queued on the process that goes. */
  ghost predicate MayExit(s: State, p: nat) {
    && p < |s.proc| == |s.callerq| && s.proc[p].priority.User? && s.callerq[p] == []
    && (s.proc[p].sending ==> 0 <= s.proc[p].sendTo < |s.proc|)
  }

  lemma ExitKeepsInv(s: State, p: nat)
    requires Inv(s) && MayExit(s, p)
    ensures Inv(Exit(s, p))
  {
    var r := s.proc[p];
    assert SlotOk(s.nrTasks, p, r);
    assert SlotOk(s.nrTasks, p, Gone(r));
    ExitCallers(s, p);
    AcyclicFrame(s.proc, Exit(s, p).proc);
    HeldFrame(s.proc, s.held, p, Gone(r));
    ExitReady(s, p);
    BlockDispatched(s, p, Gone(r));
    ExitCount(s.proc, s.sigProcs, p);
  }

  lemma ExitCount(proc: seq<Proc>, sigProcs: int, p: nat)
    requires SignalsAgree(proc, sigProcs) && p < |proc|
    ensures SignalsAgree(proc[p := Gone(proc[p])], sigProcs - if proc[p].pendingFlag then 1 else 0)
  {
    assert SignalsOk(proc[p]);
    if proc[p].pendingFlag {
      assert p in PendingSlots(proc);
    }
    assert PendingSlots(proc[p := Gone(proc[p])]) == PendingSlots(proc) - {p};
  }

  lemma ExitReady(s: State, p: nat)
    requires Inv(s) && MayExit(s, p)
    ensures ReadyAgree(s.nrTasks, Exit(s, p).proc, Exit(s, p).rdy)
  {
    var c := QClass(s.proc[p]);
    RemoveMembers(s.rdy[c], p);
  }

  lemma ExitCallers(s: State, p: nat)
    requires Inv(s) && MayExit(s, p)
    ensures CallersAgree(s.nrTasks, Exit(s, p).proc, Exit(s, p).callerq)
    ensures NoMissed(s.nrTasks, Exit(s, p).proc, Exit(s, p).callerq)
  {
    var r, s' := s.proc[p], Exit(s, p);
    if r.sending {
      RemoveMembers(s.callerq[r.sendTo], p);
    }
    forall q | 0 <= q < |s'.proc| && s'.proc[q].sending ensures SendingOk(s.nrTasks, s'.proc, s'.callerq, q) {
      assert SendingOk(s.nrTasks, s.proc, s.callerq, q);
    }
    forall q | 0 <= q < |s'.proc| && s'.proc[q].receiving ensures ReceiverOk(s.nrTasks, s'.proc[q], s'.callerq[q]) {
      assert ReceiverOk(s.nrTasks, s.proc[q], s.callerq[q]);
    }
  }

  // ---------------------------------------------------------- quota calls

  lemma FlipKeepsInv(s: State, i: nat)
    requires Inv(s) && i < |s.proc|
    ensures Inv(s.(proc := s.proc[i := s.proc[i].(priGroup := 1 - s.proc[i].priGroup)]))
  {
    assert SlotOk(s.nrTasks, i, s.proc[i]) && SignalsOk(s.proc[i]);
    var r := s.proc[i].(priGroup := 1 - s.proc[i].priGroup);
    hide Shape, ReadyAgree, CallersAgree, Acyclic, HeldAgree, SignalsAgree;
    SameRunReady(s.nrTasks, s.proc, s.rdy, i, r);
    RecordChange(s, s.(proc := s.proc[i := r]), i, r);
  }

  lemma ChangePriGroupFlips(s: State, pid: int)
    requires s.nrTasks <= |s.proc| && forall i :: 0 <= i < |s.proc| ==> s.proc[i].priGroup <= 1
    ensures var i := FirstPid(s.proc, NrProcs(s), pid);
      ChangePriGroup(s, pid).0
      == if i == NrProcs(s) then s else s.(proc := s.proc[i := s.proc[i].(priGroup := 1 - s.proc[i].priGroup)])
  {
  }

  lemma GroupsOk(nrTasks: nat, proc: seq<Proc>)
    requires Shape(nrTasks, proc)
    ensures nrTasks <= |proc| && forall i :: 0 <= i < |proc| ==> proc[i].priGroup <= 1
  {
    assert forall i :: 0 <= i < |proc| ==> SlotOk(nrTasks, i, proc[i]);
  }

  lemma ChangePriGroupKeepsInv(s: State, pid: int)
    requires Inv(s)
    ensures Inv(ChangePriGroup(s, pid).0)
  {
    GroupsOk(s.nrTasks, s.proc);
    hide Inv, ChangePriGroup;
    ChangePriGroupFlips(s, pid);
    var i := FirstPid(s.proc, NrProcs(s), pid);
    if i < NrProcs(s) {
      FlipKeepsInv(s, i);
    }
  }

  lemma SameRunReady(nrTasks: nat, proc: seq<Proc>, rdy: seq<seq<nat>>, p: nat, r: Proc)
    requires ReadyAgree(nrTasks, proc, rdy) && p < |proc|
    requires r.priority == proc[p].priority && (r.Runnable() <==> proc[p].Runnable())
    ensures ReadyAgree(nrTasks, proc[p := r], rdy)
  {
  }

  lemma SetSchedulerKeepsInv(s: State, arg: int, pid: int)
    requires Inv(s)
    ensures Inv(SetScheduler(s, arg, pid).0)
  {
  }

  /** The loops over the first NR_PROCS slots come to p and to no slot with its pid before. */
  ghost predicate IsFound(s: State, p: nat)
    requires p < |s.proc|
  {
    p < NrProcs(s) && forall q :: 0 <= q < p ==> s.proc[q].pid != s.proc[p].pid
  }

  /** q's slot is the one found for this pid. */
  ghost predicate Answers(s: State, q: int, pid: int) {
    0 <= q < |s.proc| && IsFound(s, q) && s.proc[q].pid == pid
  }

  /** q's slot is the one found for this pid, and it is in this group. */
  ghost predicate AnswersIn(s: State, q: int, pid: int, group: nat) {
    Answers(s, q, pid) && s.proc[q].priGroup == group
  }

  lemma FirstPidAnswers(s: State, pid: int)
    requires s.nrTasks <= |s.proc|
    ensures var i := FirstPid(s.proc, NrProcs(s), pid);
      && (i < NrProcs(s) ==> Answers(s, i, pid))
      && (forall q {:trigger Answers(s, q, pid)} :: Answers(s, q, pid) ==> q == i < NrProcs(s))
  {
  }

  /** change_pri_group on behalf of p changes p's group if and only if p's slot is the first of its
      pid below NR_PROCS: the loop never sees the last NR_TASKS slots of the table.  In any case it
      flips the group of that first slot, tells its new group, and changes nothing else; it answers
      -1, and changes nothing, when there is no such slot. */
  lemma ChangePriGroupIff(s: State, p: nat)
    requires Inv(s) && p < |s.proc|
    ensures var (s', answer) := ChangePriGroup(s, s.proc[p].pid);
      && |s'.proc| == |s.proc|
      && (s'.proc[p].priGroup != s.proc[p].priGroup <==> IsFound(s, p))
      && (answer == -1 <==> forall q :: 0 <= q < NrProcs(s) ==> s.proc[q].pid != s.proc[p].pid)
      && (answer == -1 ==> s' == s)
      && (forall q {:trigger Answers(s, q, s.proc[p].pid)} :: Answers(s, q, s.proc[p].pid) ==>
            && answer == 1 - s.proc[q].priGroup
            && s' == s.(proc := s.proc[q := s.proc[q].(priGroup := answer)]))
  {
    GroupsOk(s.nrTasks, s.proc);
    hide Inv, SlotOk, Shape;
    ChangePriGroupFlips(s, s.proc[p].pid);
    FirstPidAnswers(s, s.proc[p].pid);
    assert IsFound(s, p) ==> Answers(s, p, s.proc[p].pid);
  }

  /** set_scheduler on behalf of p: the first slot of p's pid below NR_PROCS, p's own or not, decides.
      The answer is 0, and the divider is set, exactly when that is in group A and the percentage
      strictly between 0 and 100; -3 when only the percentage is wrong, -2 for group B, and -1 when
      there is no such slot. */
  lemma SetSchedulerIff(s: State, arg: int, p: nat)
    requires Inv(s) && p < |s.proc|
    ensures var pid, (s', answer) := s.proc[p].pid, SetScheduler(s, arg, s.proc[p].pid);
      && (answer == 0 <==> 0 < arg < 100 && exists q :: AnswersIn(s, q, pid, 0))
      && (answer == -3 <==> !(0 < arg < 100) && exists q :: AnswersIn(s, q, pid, 0))
      && (answer == -2 <==> exists q :: AnswersIn(s, q, pid, 1))
      && (answer == -1 <==> forall q :: 0 <= q < NrProcs(s) ==> s.proc[q].pid != pid)
      && s' == s.(divider := if answer == 0 then arg else s.divider)
  {
    GroupsOk(s.nrTasks, s.proc);
    var pid := s.proc[p].pid;
    var i := FirstPid(s.proc, NrProcs(s), pid);
    FirstPidAnswers(s, pid);
    hide Inv, IsFound;
    assert i < NrProcs(s) ==> AnswersIn(s, i, pid, s.proc[i].priGroup);
  }
}
