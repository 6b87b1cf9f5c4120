/** The kernel from boot on: every reachable state satisfies the invariants, and what that
    means for whole runs. */
module KernelRuns {
  import opened Queues
  import opened KernelState
  import opened KernelInvariants
  import opened KernelMessages
  import opened Scheduler
  import opened SystemTask
  import opened KernelSteps

  // -------------------------------------------------------------------- boot

  function FreshProc(priority: Priority, pid: int): Proc {
    Proc(priority, false, false, false, false, false, false, 0, 0, false, false, {}, 0, 0, 0, pid)
  }

  /** The priority the boot loop gives slot p. */
  function BootPriority(nrTasks: nat, p: nat): Priority {
    if p < nrTasks then Task else if p < InitSlot(nrTasks) then Server else User
  }

  /** The state after the boot loop has dealt with the slots below t. */
  function BootLoop(nrTasks: nat, nrProcs: nat, t: nat): (s: State)
    requires 7 <= nrTasks && 3 <= nrProcs && t <= nrTasks + 3
    ensures |s.proc| == |s.callerq| == nrTasks + nrProcs && |s.rdy| == 3 && s.nrTasks == nrTasks
  {
    if t == 0 then
      State(nrTasks, seq(nrTasks + nrProcs, _ => FreshProc(Vacant, 0)), seq(nrTasks + nrProcs, _ => []),
            [[], [], []], IdleSlot(nrTasks), [], 0, 50, History(0, 0, 0), [])
    else BootRound(BootLoop(nrTasks, nrProcs, t - 1), t - 1)
  }

  /** The boot loop's dealings with slot p. */
  function BootRound(s: State, p: nat): (s': State)
    requires p < |s.proc| && |s.rdy| == 3
    ensures |s'.proc| == |s.proc| && s'.callerq == s.callerq && |s'.rdy| == 3 && s'.nrTasks == s.nrTasks
  {
    var s1 := s.(proc := s.proc[p := FreshProc(BootPriority(s.nrTasks, p), 0)]);
    if p == IdleSlot(s.nrTasks) || p == HardwareSlot(s.nrTasks) then s1 else Ready(s1, p)
  }

  /** The state in which the first process starts to run. */
  function Boot(nrTasks: nat, nrProcs: nat): State
    requires 7 <= nrTasks && 3 <= nrProcs
  {
    PickProc(Named(BootLoop(nrTasks, nrProcs, nrTasks + 3)))
  }

  /** INIT gets its pid, IDLE its priority. */
  function Named(s: State): State
    requires 7 <= s.nrTasks && s.nrTasks + 3 <= |s.proc|
  {
    var init, idle := InitSlot(s.nrTasks), IdleSlot(s.nrTasks);
    s.(proc := s.proc[init := s.proc[init].(pid := 1)][idle := s.proc[idle].(priority := IdleClass)])
  }

  /** p has been put on ready queue c by the first t rounds of the boot loop. */
  predicate BootQueued(nrTasks: nat, t: nat, c: int, p: nat) {
    && p < t && p != IdleSlot(nrTasks) && p != HardwareSlot(nrTasks)
    && c == QClass(FreshProc(BootPriority(nrTasks, p), 0))
  }

  /** What the first t rounds of the boot loop have made of the table. */
  ghost predicate BootOk(nrTasks: nat, t: nat, s: State) {
    && s.nrTasks == nrTasks && |s.rdy| == 3
    && (forall p :: 0 <= p < |s.proc| ==>
          s.proc[p] == FreshProc(if p < t then BootPriority(nrTasks, p) else Vacant, 0))
    && (forall d :: 0 <= d < |s.callerq| ==> s.callerq[d] == [])
    && s.held == [] && s.sigProcs == 0 && s.divider == 50
    && (forall c :: 0 <= c < 3 ==> NoDup(s.rdy[c]))
    && (forall c, p: nat {:trigger p in s.rdy[c]} :: 0 <= c < 3 ==>
          (p in s.rdy[c] <==> BootQueued(nrTasks, t, c, p)))
  }

  lemma BootRoundOk(nrTasks: nat, t: nat, s: State)
    requires 7 <= nrTasks && t < |s.proc| && BootOk(nrTasks, t, s)
    ensures BootOk(nrTasks, t + 1, BootRound(s, t))
  {
    var c := QClass(FreshProc(BootPriority(nrTasks, t), 0));
    assert t !in s.rdy[c];
    AppendMembers(s.rdy[c], t);
    PrependMembers(s.rdy[c], t);
  }

  lemma BootStartOk(nrTasks: nat, nrProcs: nat)
    requires 7 <= nrTasks && 3 <= nrProcs
    ensures BootOk(nrTasks, 0, BootLoop(nrTasks, nrProcs, 0))
  {
  }

  lemma {:induction false} BootLoopQueues(nrTasks: nat, nrProcs: nat, t: nat)
    requires 7 <= nrTasks && 3 <= nrProcs && t <= nrTasks + 3
    ensures BootOk(nrTasks, t, BootLoop(nrTasks, nrProcs, t))
  {
    hide BootOk, BootRound;
    if t == 0 {
      BootStartOk(nrTasks, nrProcs);
    } else {
      BootLoopQueues(nrTasks, nrProcs, t - 1);
      BootRoundOk(nrTasks, t - 1, BootLoop(nrTasks, nrProcs, t - 1));
    }
  }

  lemma BootKeepsInv(nrTasks: nat, nrProcs: nat)
    requires 7 <= nrTasks && 3 <= nrProcs
    ensures Inv(Boot(nrTasks, nrProcs))
  {
    BootReady(nrTasks, nrProcs);
    BootLoopQueues(nrTasks, nrProcs, nrTasks + 3);
    var s := BootLoop(nrTasks, nrProcs, nrTasks + 3);
    hide BootLoop, BootQueued, ReadyAgree;
    var b := Boot(nrTasks, nrProcs);
    assert Ranked(b.proc, seq(|b.proc|, _ => 0));
    assert PendingSlots(b.proc) == {};
  }

  /** The table at boot: the tasks below NR_TASKS, then MM, FS and INIT, which has pid 1; all without
      flags, in group A, and in the ready queues but for IDLE and HARDWARE, tasks and servers in the
      order of their slots; every other slot is free. */
  lemma BootTable(nrTasks: nat, nrProcs: nat)
    requires 7 <= nrTasks && 3 <= nrProcs
    ensures var s := Boot(nrTasks, nrProcs);
      && |s.proc| == nrTasks + nrProcs && |s.rdy| == 3 && s.divider == 50 && s.history == History(0, 0, 0)
      && (forall p :: 0 <= p < |s.proc| ==>
            s.proc[p] == FreshProc(if p == IdleSlot(nrTasks) then IdleClass
                                   else if p < nrTasks + 3 then BootPriority(nrTasks, p) else Vacant,
                                   if p == InitSlot(nrTasks) then 1 else 0))
      && (forall c, i, j :: 0 <= c < 2 && 0 <= i < j < |s.rdy[c]| ==> s.rdy[c][i] < s.rdy[c][j])
      && s.rdy[USER_Q] == [InitSlot(nrTasks)]
  {
    var t := nrTasks + 3;
    BootLoopQueues(nrTasks, nrProcs, t);
    BootInOrder(nrTasks, nrProcs, t);
    hide BootQueued;
  }

  lemma {:induction false} BootInOrder(nrTasks: nat, nrProcs: nat, t: nat)
    requires 7 <= nrTasks && 3 <= nrProcs && t <= nrTasks + 3
    ensures var s := BootLoop(nrTasks, nrProcs, t);
      && s.history == History(0, 0, 0)
      && (forall c, i :: 0 <= c < 2 && 0 <= i < |s.rdy[c]| ==> s.rdy[c][i] < t)
      && (forall c, i, j :: 0 <= c < 2 && 0 <= i < j < |s.rdy[c]| ==> s.rdy[c][i] < s.rdy[c][j])
      && s.rdy[USER_Q] == if t > InitSlot(nrTasks) then [InitSlot(nrTasks)] else []
  {
    if t > 0 {
      BootInOrder(nrTasks, nrProcs, t - 1);
    }
  }

  lemma BootReady(nrTasks: nat, nrProcs: nat)
    requires 7 <= nrTasks && 3 <= nrProcs
    ensures ReadyAgree(nrTasks, Boot(nrTasks, nrProcs).proc, Boot(nrTasks, nrProcs).rdy)
  {
    BootLoopQueues(nrTasks, nrProcs, nrTasks + 3);
    var b := Boot(nrTasks, nrProcs);
    forall c, p: nat | 0 <= c < 3 && p in b.rdy[c]
      ensures p < |b.proc| && CanRun(nrTasks, p, b.proc[p]) && QClass(b.proc[p]) == c
    {
      assert BootQueued(nrTasks, nrTasks + 3, c, p);
    }
    forall p | 0 <= p < |b.proc| && CanRun(nrTasks, p, b.proc[p]) ensures p in b.rdy[QClass(b.proc[p])] {
      assert BootQueued(nrTasks, nrTasks + 3, QClass(b.proc[p]), p);
    }
  }

  // -------------------------------------------------------------------- runs

  datatype Event =
    | ESysCall(call: Call, srcDest: int, addressOk: bool)
    | EInterrupt(task: nat, busy: bool)
    | EUnhold
    | ERelease
    | ESched
    | EFork(parent: nat, child: nat, childPid: nat)
    | ENewMap(k: int)
    | EExec(p: nat, traced: bool, sigtrap: nat)
    | EExit(p: nat)
    | EEndSig(p: nat)
    | ECauseSig(p: nat, sig: nat)
    | ETrace(p: nat, request: TraceRequest)
    | EChangePriGroup(pid: int)
    | ESetScheduler(arg: int, pid: int)

  /** The contract of the environment, event by event.  EUnhold is unhold() undisturbed; as a
      sequence of ERelease, one for each round, it lets interrupts in between the rounds. */
  ghost predicate Enabled(s: State, e: Event) {
    && Sized(s) && s.procPtr < |s.proc|
    && match e
       case ESysCall(call, srcDest, _) => MaySysCall(s, call, srcDest)
       case EInterrupt(t, _) => t < |s.proc| && s.proc[t].priority.Task?
       case EUnhold => true
       case ERelease => s.held != [] && s.held[0] < |s.proc|
       case ESched => 0 <= s.divider <= 100
       case EFork(parent, child, _) => MayFork(s, parent, child)
       case ENewMap(_) => TaskRuns(s)
       case EExec(p, _, _) => TaskRuns(s) && MayExec(s, p)
       case EExit(p) => MayExit(s, p)
       case EEndSig(p) => TaskRuns(s) && MayEndSig(s, p)
       case ECauseSig(p, _) => p < |s.proc| && s.proc[p].priority.User?
       case ETrace(p, request) => TaskRuns(s) && MayTrace(s, p, request)
       case EChangePriGroup(_) => true
       case ESetScheduler(_, _) => true
  }

  ghost function Step(s: State, e: Event): State
    requires Enabled(s, e)
  {
    match e
    case ESysCall(call, srcDest, addressOk) => SysCall(s, call, srcDest, addressOk).0
    case EInterrupt(t, busy) => Interrupt(s, t, busy)
    case EUnhold => Unhold(s)
    case ERelease => Release(s)
    case ESched => Sched(s)
    case EFork(parent, child, childPid) => Fork(s, parent, child, childPid)
    case ENewMap(k) => NewMap(s, k).0
    case EExec(p, traced, sigtrap) => Exec(s, p, traced, sigtrap)
    case EExit(p) => Exit(s, p)
    case EEndSig(p) => EndSig(s, p).0
    case ECauseSig(p, sig) => CauseSig(s, p, sig)
    case ETrace(p, request) => Trace(s, p, request).0
    case EChangePriGroup(pid) => ChangePriGroup(s, pid).0
    case ESetScheduler(arg, pid) => SetScheduler(s, arg, pid).0
  }

  /** One complete kernel entry keeps the invariants. */
  lemma StepKeepsInv(s: State, e: Event)
    requires Inv(s) && Enabled(s, e)
    ensures Inv(Step(s, e))
  {
    match e
    case ESysCall(call, srcDest, addressOk) => SysCallKeepsInv(s, call, srcDest, addressOk);
    case EInterrupt(t, busy) => InterruptKeepsInv(s, t, busy);
    case EUnhold => UnholdKeepsInv(s);
    case ERelease => ReleaseKeepsInv(s);
    case ESched => SchedKeepsInv(s);
    case EFork(parent, child, childPid) => ForkKeepsInv(s, parent, child, childPid);
    case ENewMap(k) => NewMapKeepsInv(s, k);
    case EExec(p, traced, sigtrap) => ExecKeepsInv(s, p, traced, sigtrap);
    case EExit(p) => ExitKeepsInv(s, p);
    case EEndSig(p) => EndSigKeepsInv(s, p);
    case ECauseSig(p, sig) => CauseSigKeepsInv(s, p, sig);
    case ETrace(p, request) => TraceKeepsInv(s, p, request);
    case EChangePriGroup(pid) => ChangePriGroupKeepsInv(s, pid);
    case ESetScheduler(arg, pid) => SetSchedulerKeepsInv(s, arg, pid);
  }

  /** states is a run from boot in which events[i] leads from states[i] to states[i + 1]. */
  ghost predicate IsRun(nrTasks: nat, nrProcs: nat, states: seq<State>, events: seq<Event>) {
    && 7 <= nrTasks && 3 <= nrProcs
    && |states| == |events| + 1
    && states[0] == Boot(nrTasks, nrProcs)
    && forall i :: 0 <= i < |events| ==> Leads(states[i], events[i], states[i + 1])
  }

  ghost predicate Leads(s: State, e: Event, s': State) {
    Enabled(s, e) && s' == Step(s, e)
  }

  lemma LeadsKeepsInv(s: State, e: Event, s': State)
    requires Inv(s) && Leads(s, e, s')
    ensures Inv(s')
  {
    StepKeepsInv(s, e);
  }

  /** Every state of every run satisfies all the invariants. */
  lemma {:induction false} RunsKeepInv(nrTasks: nat, nrProcs: nat, states: seq<State>, events: seq<Event>, i: nat)
    requires IsRun(nrTasks, nrProcs, states, events) && i < |states|
    ensures Inv(states[i])
  {
    hide Inv, Leads, Boot;
    if i == 0 {
      BootKeepsInv(nrTasks, nrProcs);
    } else {
      RunsKeepInv(nrTasks, nrProcs, states, events, i - 1);
      assert Leads(states[i - 1], events[i - 1], states[i]);
      LeadsKeepsInv(states[i - 1], events[i - 1], states[i]);
    }
  }

  // ------------------------------------------- nothing queued or held is lost

  /** Between s and s', a message from source was put into dest's buffer. */
  ghost predicate Delivered(s: State, s': State, source: int, dest: nat) {
    && s.log <= s'.log
    && exists i :: |s.log| <= i < |s'.log| && s'.log[i].source == source && s'.log[i].dest == dest
  }

  /** From s to s' every waiting sender and every outstanding interrupt is still there, or its
      message was delivered. */
  ghost predicate NoneLost(s: State, s': State, q: nat) {
    && q < |s.proc| == |s'.proc| && s.log <= s'.log && s'.nrTasks == s.nrTasks
    && (s.proc[q].sending ==>
          (s'.proc[q].sending && s'.proc[q].sendTo == s.proc[q].sendTo)
          || (s.proc[q].sendTo >= 0 && Delivered(s, s', q, s.proc[q].sendTo)))
    && (Outstanding(s, q) ==> Outstanding(s', q) || Delivered(s, s', HardwareSlot(s.nrTasks), q))
  }

  /** An interrupt for q was raised and has not been delivered. */
  ghost predicate Outstanding(s: State, q: nat)
    requires q < |s.proc|
  {
    s.proc[q].intHeld || s.proc[q].intBlocked
  }

  lemma DeliveredNow(s: State, s': State, d: Delivery)
    requires s'.log == s.log + [d]
    ensures s.log <= s'.log && Delivered(s, s', d.source, d.dest)
  {
    assert s'.log[|s.log|] == d;
  }

  lemma SendLosesNone(s: State, p: nat, dest: int, addressOk: bool, q: nat)
    requires Core(s) && Sized(s) && MaySend(s, p, dest) && q < |s.proc|
    ensures NoneLost(s, MiniSend(s, p, dest, addressOk).0, q)
  {
  }

  lemma InformLosesNone(s: State, q: nat)
    requires Core(s) && s.sigProcs > 0 && q < |s.proc|
    requires s.proc[MmSlot(s.nrTasks)].receiving && s.proc[MmSlot(s.nrTasks)].getFrom == ANY
    ensures Sized(s) && NoneLost(s, Inform(s), q)
  {
    InformSucceeds(s);
  }

  lemma NoneLostTwice(s: State, s1: State, s2: State, q: nat)
    requires NoneLost(s, s1, q) && NoneLost(s1, s2, q)
    ensures NoneLost(s, s2, q)
  {
  }

  lemma DeliveredLonger(s: State, s1: State, s2: State, source: int, dest: nat)
    requires s.log <= s1.log <= s2.log
    ensures Delivered(s, s1, source, dest) || Delivered(s1, s2, source, dest) ==> Delivered(s, s2, source, dest)
  {
  }

  lemma ReceiveLosesNone(s: State, p: nat, src: int, q: nat)
    requires Core(s) && Sized(s) && MayReceive(s, p, src) && MmInformed(s) && q < |s.proc|
    ensures NoneLost(s, MiniRec(s, p, src), q)
  {
    FirstMatchIsFirst(s.callerq[p], src);
    var i := FirstMatch(s.callerq[p], src);
    if !s.proc[p].sending && i < |s.callerq[p]| {
      var x := s.callerq[p][i];
      assert x in s.callerq[p];
      DeliveredNow(s, MiniRec(s, p, src), Delivery(x, p));
    } else if !s.proc[p].sending && s.proc[p].intBlocked && Accepts(src, HardwareSlot(s.nrTasks)) {
      DeliveredNow(s, MiniRec(s, p, src), Delivery(HardwareSlot(s.nrTasks), p));
    } else {
      AwaitKeepsCore(s, p, src);
      var s1 := AwaitMessage(s, p, src);
      assert NoneLost(s, s1, q);
      if s1.sigProcs > 0 && p == MmSlot(s.nrTasks) && src == ANY {
        InformLosesNone(s1, q);
        NoneLostTwice(s, s1, Inform(s1), q);
      }
    }
  }

  lemma SendCallLosesNone(s: State, call: Call, srcDest: int, addressOk: bool, q: nat)
    requires Inv(s) && Sized(s) && s.procPtr < |s.proc| && MaySysCall(s, call, srcDest) && q < |s.proc|
    requires MaySend(s, s.procPtr, srcDest) && !call.Receive? && CanRun(s.nrTasks, s.procPtr, s.proc[s.procPtr])
    requires 0 <= srcDest < |s.proc| || srcDest == ANY
    requires s.proc[s.procPtr].priority.User? ==> call.Both?
    ensures NoneLost(s, SysCall(s, call, srcDest, addressOk).0, q)
  {
    var p := s.procPtr;
    SendLosesNone(s, p, srcDest, addressOk, q);
    var (s1, code) := MiniSend(s, p, srcDest, addressOk);
    if call.Both? && code == OK {
      assert MayReceive(s1, p, srcDest);
      MiniSendKeepsCore(s, p, srcDest, addressOk);
      SendKeepsInformed(s, p, srcDest, addressOk);
      hide NoneLost, Core;
      ReceiveLosesNone(s1, p, srcDest, q);
      NoneLostTwice(s, s1, MiniRec(s1, p, srcDest), q);
    }
  }

  lemma SysCallLosesNone(s: State, call: Call, srcDest: int, addressOk: bool, q: nat)
    requires Inv(s) && Sized(s) && s.procPtr < |s.proc| && MaySysCall(s, call, srcDest) && q < |s.proc|
    ensures NoneLost(s, SysCall(s, call, srcDest, addressOk).0, q)
  {
    RunningIsReal(s);
    var p := s.procPtr;
    assert SlotOk(s.nrTasks, p, s.proc[p]);
    if !(0 <= srcDest < |s.proc| || srcDest == ANY) || (s.proc[p].priority.User? && !call.Both?) {
    } else if call.Receive? {
      ReceiveLosesNone(s, p, srcDest, q);
    } else {
      SendCallLosesNone(s, call, srcDest, addressOk, q);
    }
  }

  /** An interrupt is outstanding afterwards unless it was delivered on the spot. */
  lemma InterruptRaised(s: State, t: nat, busy: bool)
    requires Inv(s) && t < |s.proc| && s.proc[t].priority.Task?
    ensures var s' := Interrupt(s, t, busy);
            |s'.proc| == |s.proc| && (Outstanding(s', t) || Delivered(s, s', HardwareSlot(s.nrTasks), t))
  {
    if !busy && WaitsFor(s.proc[t], HardwareSlot(s.nrTasks)) {
      DeliveredNow(s, Interrupt(s, t, busy), Delivery(HardwareSlot(s.nrTasks), t));
    }
  }

  lemma InterruptLosesNone(s: State, t: nat, busy: bool, q: nat)
    requires Inv(s) && t < |s.proc| && s.proc[t].priority.Task? && q < |s.proc|
    ensures NoneLost(s, Interrupt(s, t, busy), q)
  {
  }

  lemma ReleaseLosesNone(s: State, q: nat)
    requires Inv(s) && s.held != [] && q < |s.proc|
    ensures s.held[0] < |s.proc| && NoneLost(s, Release(s), q)
  {
    var t := s.held[0];
    assert t in s.held;
    if WaitsFor(s.proc[t], HardwareSlot(s.nrTasks)) {
      DeliveredNow(s, Release(s), Delivery(HardwareSlot(s.nrTasks), t));
    }
  }

  lemma {:induction false} ReleaseNLosesNone(s: State, n: nat, q: nat)
    requires Inv(s) && Sized(s) && n <= |s.held| && q < |s.proc|
    ensures NoneLost(s, ReleaseN(s, n), q)
    decreases n
  {
    if n > 0 {
      ReleaseNLosesNone(s, n - 1, q);
      ReleaseNKeepsInv(s, n - 1);
      ReleaseLosesNone(ReleaseN(s, n - 1), q);
      NoneLostTwice(s, ReleaseN(s, n - 1), ReleaseN(s, n), q);
    }
  }

  lemma CauseSigLosesNone(s: State, p: nat, sig: nat, q: nat)
    requires Inv(s) && Sized(s) && p < |s.proc| && s.proc[p].priority.User? && q < |s.proc|
    ensures NoneLost(s, CauseSig(s, p, sig), q)
  {
    if sig !in s.proc[p].pending && !s.proc[p].pendingFlag {
      var s1 := FirstSignal(s, p, sig);
      FirstSignalKeepsCore(s, p, sig);
      assert NoneLost(s, s1, q);
      assert |PendingSlots(s.proc)| >= 0;
      var mm := s1.proc[MmSlot(s.nrTasks)];
      if mm.receiving && mm.getFrom == ANY {
        InformLosesNone(s1, q);
        NoneLostTwice(s, s1, Inform(s1), q);
      }
    }
  }

  lemma ExecLosesNone(s: State, p: nat, traced: bool, sigtrap: nat, q: nat)
    requires Inv(s) && Sized(s) && MayExec(s, p) && q < |s.proc|
    ensures NoneLost(s, Exec(s, p, traced, sigtrap), q)
  {
    CauseSigLosesNone(s, p, sigtrap, q);
    CauseSigKeepsSized(s, p, sigtrap);
    var s1 := if traced then CauseSig(s, p, sigtrap) else s;
    assert NoneLost(s, s1, q);
    assert NoneLost(s1, Exec(s, p, traced, sigtrap), q);
    NoneLostTwice(s, s1, Exec(s, p, traced, sigtrap), q);
  }

  lemma ForkLosesNone(s: State, parent: nat, child: nat, pid: nat, q: nat)
    requires Inv(s) && MayFork(s, parent, child) && q < |s.proc|
    ensures NoneLost(s, Fork(s, parent, child, pid), q)
  {
  }

  lemma SchedLosesNone(s: State, q: nat)
    requires Inv(s) && q < |s.proc|
    ensures NoneLost(s, Sched(s), q)
  {
  }

  lemma ExitLosesNone(s: State, p: nat, q: nat)
    requires Inv(s) && MayExit(s, p) && q < |s.proc| && p != q
    ensures NoneLost(s, Exit(s, p), q)
  {
  }

  /** What changes only p's record, and neither its sending nor its interrupts, loses nothing. */
  lemma RecordLosesNone(s: State, s': State, p: nat, q: nat)
    requires p < |s.proc| == |s'.proc| && q < |s.proc| && s'.log == s.log && s'.nrTasks == s.nrTasks
    requires q != p ==> s'.proc[q] == s.proc[q]
    requires s'.proc[p].sending == s.proc[p].sending && s'.proc[p].sendTo == s.proc[p].sendTo
    requires s'.proc[p].intHeld == s.proc[p].intHeld && s'.proc[p].intBlocked == s.proc[p].intBlocked
    ensures NoneLost(s, s', q)
  {
  }

  lemma HandlerLosesNone(s: State, p: nat, request: TraceRequest, q: nat)
    requires Inv(s) && p < |s.proc| && q < |s.proc|
    ensures NoneLost(s, NewMap(s, p).0, q)
    ensures NoneLost(s, EndSig(s, p).0, q)
    ensures NoneLost(s, Trace(s, p, request).0, q)
  {
    hide NoneLost, CallersAgree, Acyclic, NoMissed, SignalsAgree, HeldAgree, MmInformed;
    RecordLosesNone(s, NewMap(s, p).0, p, q);
    RecordLosesNone(s, EndSig(s, p).0, p, q);
    RecordLosesNone(s, Trace(s, p, request).0, p, q);
  }

  lemma QuotaCallLosesNone(s: State, arg: int, pid: int, q: nat)
    requires Inv(s) && q < |s.proc| && s.nrTasks <= |s.proc|
    ensures NoneLost(s, ChangePriGroup(s, pid).0, q)
    ensures NoneLost(s, SetScheduler(s, arg, pid).0, q)
  {
    hide Core, Dispatched, MmInformed;
  }

  /** No kernel entry loses the message of a blocked sender or an interrupt, except that an
      exiting process takes its own message with it. */
  lemma StepLosesNone(s: State, e: Event, q: nat)
    requires Inv(s) && Enabled(s, e) && q < |s.proc|
    requires e != EExit(q)
    ensures NoneLost(s, Step(s, e), q)
  {
    match e
    case ESysCall(call, srcDest, addressOk) => SysCallLosesNone(s, call, srcDest, addressOk, q);
    case EInterrupt(t, busy) => InterruptLosesNone(s, t, busy, q);
    case EUnhold => ReleaseNLosesNone(s, |s.held|, q);
    case ERelease => ReleaseLosesNone(s, q);
    case ESched => SchedLosesNone(s, q);
    case EFork(parent, child, childPid) => ForkLosesNone(s, parent, child, childPid, q);
    case ENewMap(k) => if 0 <= k < |s.proc| { HandlerLosesNone(s, k, T_STOP, q); }
    case EExec(p, traced, sigtrap) => ExecLosesNone(s, p, traced, sigtrap, q);
    case EExit(p) => ExitLosesNone(s, p, q);
    case EEndSig(p) => HandlerLosesNone(s, p, T_STOP, q);
    case ECauseSig(p, sig) => CauseSigLosesNone(s, p, sig, q);
    case ETrace(p, request) => HandlerLosesNone(s, p, request, q);
    case EChangePriGroup(pid) => QuotaCallLosesNone(s, 0, pid, q);
    case ESetScheduler(arg, pid) => QuotaCallLosesNone(s, arg, pid, q);
  }

  lemma LeadsLosesNone(s: State, e: Event, s': State, q: nat)
    requires Inv(s) && Leads(s, e, s') && q < |s.proc| && e != EExit(q)
    ensures NoneLost(s, s', q)
  {
    StepLosesNone(s, e, q);
  }

  /** In every run, from any state on until q exits: a sender that was blocked is still queued on
      the same process or its message has been delivered to that process, and an interrupt that
      was outstanding still is or its message has been delivered. */
  lemma {:induction false} RunsLoseNone(nrTasks: nat, nrProcs: nat, states: seq<State>, events: seq<Event>, i: nat, j: nat, q: nat)
    requires IsRun(nrTasks, nrProcs, states, events) && i <= j < |states| && q < |states[i].proc|
    requires forall k :: i <= k < j ==> events[k] != EExit(q)
    ensures NoneLost(states[i], states[j], q)
    decreases j
  {
    if i < j {
      RunsLoseNone(nrTasks, nrProcs, states, events, i, j - 1, q);
      RunsKeepInv(nrTasks, nrProcs, states, events, j - 1);
      assert q < |states[j - 1].proc|;
      hide Inv, Leads, NoneLost, Boot;
      assert Leads(states[j - 1], events[j - 1], states[j]);
      LeadsLosesNone(states[j - 1], events[j - 1], states[j], q);
      NoneLostTwice(states[i], states[j - 1], states[j], q);
    }
  }

  lemma {:induction false} RunsSameTasks(nrTasks: nat, nrProcs: nat, states: seq<State>, events: seq<Event>, i: nat)
    requires IsRun(nrTasks, nrProcs, states, events) && i < |states|
    ensures states[i].nrTasks == nrTasks
  {
    hide Inv, Leads, Boot;
    if i == 0 {
      BootTasks(nrTasks, nrProcs);
    } else {
      RunsSameTasks(nrTasks, nrProcs, states, events, i - 1);
      RunsKeepInv(nrTasks, nrProcs, states, events, i - 1);
      assert Leads(states[i - 1], events[i - 1], states[i]);
      LeadsSameTasks(states[i - 1], events[i - 1], states[i]);
    }
  }

  lemma BootTasks(nrTasks: nat, nrProcs: nat)
    requires 7 <= nrTasks && 3 <= nrProcs
    ensures Boot(nrTasks, nrProcs).nrTasks == nrTasks
  {
  }

  lemma LeadsSameTasks(s: State, e: Event, s': State)
    requires Inv(s) && Leads(s, e, s')
    ensures s'.nrTasks == s.nrTasks
  {
    assert SlotOk(s.nrTasks, 0, s.proc[0]);
    StepLosesNone(s, e, 0);
  }

  /** Only users exit, and the slots below NR_TASKS never hold one. */
  lemma TaskNeverExits(nrTasks: nat, nrProcs: nat, states: seq<State>, events: seq<Event>, k: nat, t: nat)
    requires IsRun(nrTasks, nrProcs, states, events) && k < |events| && t < nrTasks
    ensures events[k] != EExit(t)
  {
    RunsKeepInv(nrTasks, nrProcs, states, events, k);
    RunsSameTasks(nrTasks, nrProcs, states, events, k);
    assert Leads(states[k], events[k], states[k + 1]);
    assert SlotOk(nrTasks, t, states[k].proc[t]);
  }

  /** From the moment it is raised, an interrupt is held or blocked until it is delivered. */
  lemma InterruptsAreNeverLost(nrTasks: nat, nrProcs: nat, states: seq<State>, events: seq<Event>, i: nat, j: nat, t: nat, busy: bool)
    requires IsRun(nrTasks, nrProcs, states, events) && i < j < |states|
    requires events[i] == EInterrupt(t, busy)
    ensures t < |states[j].proc|
    ensures Outstanding(states[j], t) || Delivered(states[i], states[j], HardwareSlot(nrTasks), t)
  {
    RunsKeepInv(nrTasks, nrProcs, states, events, i);
    RunsKeepInv(nrTasks, nrProcs, states, events, i + 1);
    assert Leads(states[i], events[i], states[i + 1]);
    InterruptRaised(states[i], t, busy);
    RunsSameTasks(nrTasks, nrProcs, states, events, i);
    RunsSameTasks(nrTasks, nrProcs, states, events, i + 1);
    assert SlotOk(nrTasks, t, states[i].proc[t]);
    forall k | i + 1 <= k < j ensures events[k] != EExit(t) {
      TaskNeverExits(nrTasks, nrProcs, states, events, k, t);
    }
    RunsLoseNone(nrTasks, nrProcs, states, events, i + 1, j, t);
    DeliveredLonger(states[i], states[i + 1], states[j], HardwareSlot(nrTasks), t);
  }
}
