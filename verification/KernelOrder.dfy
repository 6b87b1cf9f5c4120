/** Messages are taken in the order in which their senders queued up, and only real ones are
    delivered. */
module KernelOrder {
  import opened Queues
  import opened KernelState
  import opened KernelInvariants
  import opened KernelMessages
  import opened Scheduler
  import opened SystemTask
  import opened KernelSteps
  import opened KernelRuns

  // --------------------------------------------------------- arrival order

  /** x stands before y in q. */
  ghost predicate Ahead(q: seq<nat>, x: nat, y: nat) {
    exists i, j :: 0 <= i < j < |q| && q[i] == x && q[j] == y
  }

  /** What one kernel entry may do to a caller queue: one joins at the end, or one leaves. */
  ghost predicate Moves(q: seq<nat>, q': seq<nat>) {
    || q' == q
    || (exists x: nat :: x !in q && q' == q + [x])
    || (exists i: nat :: i < |q| && q' == Without(q, i))
  }

  /** Who was ahead stays ahead, and who joins is behind everybody. */
  lemma MovesKeepOrder(q: seq<nat>, q': seq<nat>, x: nat, y: nat)
    requires NoDup(q) && Moves(q, q') && x in q && x in q' && y in q'
    ensures Ahead(q, x, y) || y !in q ==> Ahead(q', x, y)
  {
  }

  // ----------------------------------------------------------- one entry

  /** The caller queues stay, and only messages from HARDWARE are delivered. */
  ghost predicate OnlyHardware(s: State, s': State) {
    && s'.callerq == s.callerq && s'.nrTasks == s.nrTasks && s.log <= s'.log
    && forall i :: |s.log| <= i < |s'.log| ==> s'.log[i].source == HardwareSlot(s.nrTasks)
  }

  lemma OnlyHardwareTwice(s: State, s1: State, s2: State)
    requires OnlyHardware(s, s1) && OnlyHardware(s1, s2)
    ensures OnlyHardware(s, s2)
  {
  }

  lemma InformHardware(s: State)
    requires Core(s) && s.sigProcs > 0
    requires s.proc[MmSlot(s.nrTasks)].receiving && s.proc[MmSlot(s.nrTasks)].getFrom == ANY
    ensures Sized(s) && OnlyHardware(s, Inform(s))
  {
  }

  lemma CauseSigHardware(s: State, p: nat, sig: nat)
    requires Inv(s) && Sized(s) && p < |s.proc| && s.proc[p].priority.User?
    ensures OnlyHardware(s, CauseSig(s, p, sig))
  {
    if sig !in s.proc[p].pending && !s.proc[p].pendingFlag {
      var s1 := FirstSignal(s, p, sig);
      FirstSignalKeepsCore(s, p, sig);
      var mm := s1.proc[MmSlot(s.nrTasks)];
      assert |PendingSlots(s.proc)| >= 0;
      if mm.receiving && mm.getFrom == ANY {
        InformHardware(s1);
        OnlyHardwareTwice(s, s1, Inform(s1));
      }
    }
  }

  lemma ExecHardware(s: State, p: nat, traced: bool, sigtrap: nat)
    requires Inv(s) && Sized(s) && MayExec(s, p)
    ensures OnlyHardware(s, Exec(s, p, traced, sigtrap))
  {
    CauseSigHardware(s, p, sigtrap);
    CauseSigKeepsSized(s, p, sigtrap);
    var s1 := if traced then CauseSig(s, p, sigtrap) else s;
    assert OnlyHardware(s, s1);
    OnlyHardwareTwice(s, s1, Exec(s, p, traced, sigtrap));
  }

  lemma InterruptHardware(s: State, t: nat, busy: bool)
    requires t < |s.proc| && 7 <= s.nrTasks && |s.rdy| == 3
    ensures OnlyHardware(s, Interrupt(s, t, busy))
  {
  }

  lemma {:induction false} ReleaseHardware(s: State, n: nat)
    requires Sized(s) && n <= |s.held|
    ensures OnlyHardware(s, ReleaseN(s, n))
    decreases n
  {
    if n > 0 {
      ReleaseHardware(s, n - 1);
      var s1 := ReleaseN(s, n - 1);
      assert s1.held[0] in s1.held;
      InterruptHardware(LetGo(s1), s1.held[0], false);
      OnlyHardwareTwice(s, s1, Release(s1));
    }
  }

  lemma ForkHardware(s: State, parent: nat, child: nat, pid: nat)
    requires Inv(s) && MayFork(s, parent, child)
    ensures OnlyHardware(s, Fork(s, parent, child, pid))
  {
    VacantHasNoCallers(s.nrTasks, s.proc, s.callerq, child);
  }

  lemma HandlerHardware(s: State, p: nat, request: TraceRequest)
    requires Inv(s) && p < |s.proc|
    ensures OnlyHardware(s, NewMap(s, p).0)
    ensures OnlyHardware(s, EndSig(s, p).0)
    ensures OnlyHardware(s, Trace(s, p, request).0)
  {
  }

  lemma QuotaHardware(s: State, arg: int, pid: int)
    requires Inv(s) && s.nrTasks <= |s.proc|
    ensures OnlyHardware(s, ChangePriGroup(s, pid).0)
    ensures OnlyHardware(s, SetScheduler(s, arg, pid).0)
  {
  }

  lemma SchedHardware(s: State)
    requires Inv(s)
    ensures OnlyHardware(s, Sched(s))
  {
  }

  /** No kernel entry but a system call or an exit touches a caller queue. */
  lemma QuietSteps(s: State, e: Event)
    requires Inv(s) && Enabled(s, e) && !e.ESysCall? && !e.EExit?
    ensures OnlyHardware(s, Step(s, e))
  {
    hide OnlyHardware, Core, Dispatched, MmInformed;
    match e
    case EInterrupt(t, busy) => InterruptHardware(s, t, busy);
    case EUnhold => ReleaseHardware(s, |s.held|);
    case ERelease => ReleaseHardware(s, 1);
    case ESched => SchedHardware(s);
    case EFork(parent, child, childPid) => ForkHardware(s, parent, child, childPid);
    case ENewMap(k) => if 0 <= k < |s.proc| { HandlerHardware(s, k, T_STOP); } else { QuotaHardware(s, 0, 0); }
    case EExec(p, traced, sigtrap) => ExecHardware(s, p, traced, sigtrap);
    case EEndSig(p) => HandlerHardware(s, p, T_STOP);
    case ECauseSig(p, sig) => CauseSigHardware(s, p, sig);
    case ETrace(p, request) => HandlerHardware(s, p, request);
    case EChangePriGroup(pid) => QuotaHardware(s, 0, pid);
    case ESetScheduler(arg, pid) => QuotaHardware(s, arg, pid);
  }

  // -------------------------------------------------------- system calls

  /** A receive takes the first sender in the queue that it accepts, and takes nobody else off. */
  lemma ReceiveTakesEarliest(s: State, p: nat, src: int) returns (i: nat)
    requires Core(s) && Sized(s) && p < |s.proc| && !s.proc[p].sending
    requires exists q: nat :: q in s.callerq[p] && Accepts(src, q)
    ensures i < |s.callerq[p]| && Accepts(src, s.callerq[p][i])
    ensures forall k :: 0 <= k < i ==> !Accepts(src, s.callerq[p][k])
    ensures MiniRec(s, p, src).log == s.log + [Delivery(s.callerq[p][i], p)]
    ensures MiniRec(s, p, src).callerq == s.callerq[p := Without(s.callerq[p], i)]
  {
    i := FirstMatch(s.callerq[p], src);
    FirstMatchIsFirst(s.callerq[p], src);
  }

  /** Between s and s' the caller queues moved by at most one, and what was delivered was sent by
      HARDWARE, by a process queued on its destination, or by the caller just now. */
  ghost predicate Orderly(s: State, caller: nat, s': State) {
    && |s'.callerq| == |s.callerq| && s.log <= s'.log
    && (forall d :: 0 <= d < |s.callerq| ==> Moves(s.callerq[d], s'.callerq[d]))
    && (forall i :: |s.log| <= i < |s'.log| ==> Real(s, caller, s'.log[i]))
  }

  ghost predicate Real(s: State, caller: nat, m: Delivery) {
    || m.source == HardwareSlot(s.nrTasks)
    || (m.dest < |s.callerq| && m.source in s.callerq[m.dest])
    || (m.source == caller && m.dest < |s.proc| && WaitsFor(s.proc[m.dest], caller))
  }

  lemma SendIsOrderly(s: State, p: nat, dest: int, addressOk: bool)
    requires Core(s) && Sized(s) && MaySend(s, p, dest)
    ensures Orderly(s, p, MiniSend(s, p, dest, addressOk).0)
  {
    if 0 <= dest < |s.proc| {
      assert p !in s.callerq[dest];
      assert Moves(s.callerq[dest], s.callerq[dest] + [p]);
    }
  }

  lemma DequeueIsOrderly(s: State, p: nat, i: nat)
    requires Sized(s) && p < |s.proc| && i < |s.callerq[p]|
    ensures Orderly(s, p, Dequeue(s, p, i))
  {
  }

  lemma HardwareIsOrderly(s: State, p: nat, s': State)
    requires OnlyHardware(s, s')
    ensures Orderly(s, p, s')
  {
  }

  lemma AwaitHardware(s: State, p: nat, src: int)
    requires Core(s) && MayReceive(s, p, src) && MmInformed(s)
    requires !s.proc[p].sending ==> FirstMatch(s.callerq[p], src) == |s.callerq[p]|
    requires !s.proc[p].sending && s.proc[p].intBlocked ==> !Accepts(src, HardwareSlot(s.nrTasks))
    ensures Sized(s) && OnlyHardware(s, MiniRec(s, p, src))
  {
    CoreIsSized(s);
    AwaitKeepsCore(s, p, src);
    hide Core;
    var s1 := AwaitMessage(s, p, src);
    assert OnlyHardware(s, s1);
    if s1.sigProcs > 0 && p == MmSlot(s.nrTasks) && src == ANY {
      InformHardware(s1);
      OnlyHardwareTwice(s, s1, Inform(s1));
    }
  }

  lemma ReceiveIsOrderly(s: State, p: nat, src: int)
    requires Core(s) && Sized(s) && MayReceive(s, p, src) && MmInformed(s)
    ensures Orderly(s, p, MiniRec(s, p, src))
  {
    hide Core, Orderly;
    FirstMatchIsFirst(s.callerq[p], src);
    var i := FirstMatch(s.callerq[p], src);
    if !s.proc[p].sending && i < |s.callerq[p]| {
      DequeueIsOrderly(s, p, i);
    } else if !s.proc[p].sending && s.proc[p].intBlocked && Accepts(src, HardwareSlot(s.nrTasks)) {
      HardwareIsOrderly(s, p, TakeInterrupt(s, p));
    } else {
      AwaitHardware(s, p, src);
      HardwareIsOrderly(s, p, MiniRec(s, p, src));
    }
  }

  lemma SysCallIsOrderly(s: State, call: Call, srcDest: int, addressOk: bool)
    requires Inv(s) && Sized(s) && s.procPtr < |s.proc| && MaySysCall(s, call, srcDest)
    ensures Orderly(s, s.procPtr, SysCall(s, call, srcDest, addressOk).0)
  {
    RunningIsReal(s);
    var p := s.procPtr;
    assert SlotOk(s.nrTasks, p, s.proc[p]);
    hide ReadyAgree, CallersAgree, Acyclic, NoMissed, SignalsAgree, HeldAgree, Orderly, Wake, Block;
    if !(0 <= srcDest < |s.proc| || srcDest == ANY) || (s.proc[p].priority.User? && !call.Both?) {
      NothingIsOrderly(s, p);
    } else if call.Receive? {
      ReceiveIsOrderly(s, p, srcDest);
    } else {
      SendIsOrderly(s, p, srcDest, addressOk);
      if call.Both? && MiniSend(s, p, srcDest, addressOk).1 == OK {
        BothAwaits(s, srcDest, addressOk);
        AwaitIsOrderly(s, MiniSend(s, p, srcDest, addressOk).0, p, srcDest);
      }
    }
  }

  lemma NothingIsOrderly(s: State, p: nat)
    ensures Orderly(s, p, s)
  {
  }

  lemma AwaitIsOrderly(s: State, s1: State, p: nat, src: int)
    requires Orderly(s, p, s1) && p < |s1.proc| && 7 <= s1.nrTasks && |s1.rdy| == 3
    ensures Orderly(s, p, AwaitMessage(s1, p, src))
  {
  }

  lemma ExitIsOrderly(s: State, p: nat)
    requires Inv(s) && MayExit(s, p)
    ensures Orderly(s, s.procPtr, Exit(s, p))
  {
    var d := s.proc[p].sendTo;
    if s.proc[p].sending {
      assert SendingOk(s.nrTasks, s.proc, s.callerq, p);
      var i :| 0 <= i < |s.callerq[d]| && s.callerq[d][i] == p;
      RemoveAt(s.callerq[d], p, i);
      assert Moves(s.callerq[d], Remove(s.callerq[d], p));
    }
  }

  /** Every kernel entry: at most one process joins a caller queue, at its end, or leaves it, and
      no message is delivered that nobody sent. */
  lemma StepIsOrderly(s: State, e: Event)
    requires Inv(s) && Enabled(s, e)
    ensures Orderly(s, s.procPtr, Step(s, e))
  {
    hide Core, Dispatched, MmInformed;
    if e.ESysCall? {
      SysCallIsOrderly(s, e.call, e.srcDest, e.addressOk);
    } else if e.EExit? {
      ExitIsOrderly(s, e.p);
    } else {
      hide Step;
      QuietSteps(s, e);
    }
  }

  lemma LeadsIsOrderly(s: State, e: Event, s': State)
    requires Inv(s) && Leads(s, e, s')
    ensures Orderly(s, s.procPtr, s')
  {
    StepIsOrderly(s, e);
  }

  // -------------------------------------------------------------- whole runs

  /** x and y are both queued on d. */
  ghost predicate BothQueued(s: State, d: nat, x: nat, y: nat) {
    d < |s.callerq| && x in s.callerq[d] && y in s.callerq[d]
  }

  /** ... and x is the one ahead. */
  ghost predicate First(s: State, d: nat, x: nat, y: nat) {
    d < |s.callerq| && Ahead(s.callerq[d], x, y)
  }

  lemma OrderKeptOnce(s: State, e: Event, s': State, d: nat, x: nat, y: nat)
    requires Inv(s) && Leads(s, e, s')
    requires BothQueued(s, d, x, y) && BothQueued(s', d, x, y) && First(s, d, x, y)
    ensures First(s', d, x, y)
  {
    LeadsIsOrderly(s, e, s');
    hide Leads;
    MovesKeepOrder(s.callerq[d], s'.callerq[d], x, y);
    assert x != y;
  }

  /** In every run: of two processes queued on d, the one that is ahead stays ahead for as long
      as both wait. */
  lemma {:induction false} ArrivalOrderIsKept(nrTasks: nat, nrProcs: nat, states: seq<State>, events: seq<Event>,
                                              i: nat, j: nat, d: nat, x: nat, y: nat)
    requires IsRun(nrTasks, nrProcs, states, events) && i <= j < |states|
    requires forall k :: i <= k <= j ==> BothQueued(states[k], d, x, y)
    requires First(states[i], d, x, y)
    ensures First(states[j], d, x, y)
    decreases j
  {
    hide Inv, Leads, Boot, First, BothQueued;
    if i < j {
      ArrivalOrderIsKept(nrTasks, nrProcs, states, events, i, j - 1, d, x, y);
      RunsKeepInv(nrTasks, nrProcs, states, events, j - 1);
      assert Leads(states[j - 1], events[j - 1], states[j]);
      OrderKeptOnce(states[j - 1], events[j - 1], states[j], d, x, y);
    }
  }
}
