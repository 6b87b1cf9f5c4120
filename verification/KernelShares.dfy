/** Turns and signals counted over whole runs: what the scheduler grants, and what a process still
    owes MM. */
module KernelShares {
  import opened KernelState
  import opened KernelInvariants
  import opened KernelMessages
  import opened Scheduler
  import opened SystemTask
  import opened KernelSteps
  import opened KernelRuns
  import opened KernelOutcomes
  import opened KernelHandlers

  // ------------------------------------------------------------ what sched does

  /** sched() with users ready: the user queue is rotated to the first head whose group is within
      quota, that head gets a turn, and it runs unless a task or server is ready.  Nothing else
      changes, and with no user ready nothing does. */
  lemma SchedOutcome(s: State) returns (n: nat)
    requires Inv(s) && Enabled(s, ESched)
    ensures Sched(s) == Step(s, ESched) && |s.rdy| == 3
    ensures var q := s.rdy[USER_Q];
      if q == [] then Sched(s) == s
      else
        && FirstWithinQuota(s.proc, q, s.history, s.divider, n)
        && n <= (if s.history.sum >= 200 then 1 else 201 - s.history.sum)
        && var q' := RotateBy(q, n);
           && q'[0] < |s.proc|
           && Sched(s) == s.(rdy := s.rdy[USER_Q := q'],
                             history := Grant(At(s.history, n), s.proc[q'[0]].priGroup),
                             procPtr := if s.rdy[TASK_Q] == [] == s.rdy[SERVER_Q] then q'[0] else s.procPtr)
  {
    n := 0;
    var q := s.rdy[USER_Q];
    if q != [] {
      n := SchedLoopPicksFirst(s.proc, q, s.history, s.divider);
      SchedLoopMembers(s.proc, q, s.history, s.divider);
      assert RotateBy(q, n)[0] in RotateBy(q, n);
    }
  }

  /** During the first 200 rotations the next process of the queue gets the turn at once if and only
      if its group has had at most its percentage of turns; otherwise it is passed over. */
  lemma NextGetsTurnIff(s: State, n: nat)
    requires Inv(s) && |s.rdy| == 3 && |s.rdy[USER_Q]| > 0 && s.history.sum < 200
    requires FirstWithinQuota(s.proc, s.rdy[USER_Q], s.history, s.divider, n)
    ensures var q := s.rdy[USER_Q];
      var next := q[if |q| > 1 then 1 else 0];
      && next < |s.proc|
      && (n == 1 <==> if s.proc[next].priGroup == 0 then s.history.a <= s.divider else s.history.b <= 100 - s.divider)
  {
    var q := s.rdy[USER_Q];
    var next := q[if |q| > 1 then 1 else 0];
    assert next in q;
    assert SlotOk(s.nrTasks, next, s.proc[next]);
    hide Core;
    assert RotateBy(q, 1) == Rotate(RotateBy(q, 0));
    assert n > 1 ==> OverQuota(At(s.history, 1), Group(s.proc, RotateBy(q, 1)), s.divider);
  }

  // -------------------------------------------------------------------- frames

  /** What only the scheduler, set_scheduler and the signal calls change. */
  ghost predicate SameCounts(s: State, s': State) {
    && |s'.proc| == |s.proc| && s'.history == s.history && s'.divider == s.divider
    && forall p :: 0 <= p < |s.proc| ==> s'.proc[p].pendCount == s.proc[p].pendCount
  }

  lemma SentCounts(s: State, p: nat, dest: nat, s': State)
    requires p < |s.proc| && dest < |s.proc|
    requires Handed(s, p, dest, s') || QueuedLast(s, p, dest, s')
    ensures SameCounts(s, s')
  {
  }

  lemma WaitsCounts(s: State, p: nat, src: int, s': State)
    requires p < |s.proc| && WaitsNow(s, p, src, s')
    ensures SameCounts(s, s')
  {
  }

  lemma InformedCounts(s: State, q: nat, s': State)
    requires 1 <= s.nrTasks < |s.proc| && InformedOf(s, q, s')
    ensures SameCounts(s, s')
  {
  }

  lemma TookCounts(s: State, p: nat, src: int, i: nat, s': State)
    requires p < |s.proc| == |s.callerq| && TookAt(s, p, src, i, s')
    ensures SameCounts(s, s')
  {
  }

  lemma ReceivedCounts(s: State, p: nat, src: int, s': State)
    requires p < |s.proc| == |s.callerq| && 1 <= s.nrTasks < |s.proc| && Received(s, p, src, s')
    ensures SameCounts(s, s')
  {
    hide TookAt, WaitsNow, InformedOf;
    if SenderAtHand(s, p, src) {
      var i: nat :| TookAt(s, p, src, i, s');
      TookCounts(s, p, src, i, s');
    } else if AtHand(s, p, src) {
    } else if s.sigProcs > 0 && p == MmSlot(s.nrTasks) && src == ANY {
      var s1: State :| WaitsNow(s, p, src, s1) && 1 <= s1.nrTasks < |s1.proc| && Informed(s1, s');
      var q: nat :| InformedOf(s1, q, s');
      WaitsCounts(s, p, src, s1);
      InformedCounts(s1, q, s');
    } else {
      WaitsCounts(s, p, src, s');
    }
  }

  lemma SysCallCounts(s: State, call: Call, srcDest: int, addressOk: bool)
    requires Inv(s) && Enabled(s, ESysCall(call, srcDest, addressOk))
    ensures SameCounts(s, Step(s, ESysCall(call, srcDest, addressOk)))
  {
    SysCallOutcome(s, call, srcDest, addressOk);
    var p, s' := s.procPtr, Step(s, ESysCall(call, srcDest, addressOk));
    CoreOf(s);
    hide Core, Step, SysCall, Received, Handed, QueuedLast, WaitsNow, MmInformed, Dispatched;
    if SysCall(s, call, srcDest, addressOk).1 == OK {
      match call
      case Receive => ReceivedCounts(s, p, srcDest, s');
      case Send => SentCounts(s, p, srcDest, s');
      case Both =>
        var s1: State :| (if WaitsFor(s.proc[srcDest], p) then Handed(s, p, srcDest, s1) else QueuedLast(s, p, srcDest, s1))
          && |s1.proc| == |s.proc| && WaitsNow(s1, p, srcDest, s');
        SentCounts(s, p, srcDest, s1);
        WaitsCounts(s1, p, srcDest, s');
    }
  }

  lemma ServedCounts(s: State, q: seq<nat>, s': State)
    requires 1 <= s.nrTasks && Served(s, q, s')
    ensures SameCounts(s, s')
  {
  }

  lemma InterruptCounts(s: State, t: nat, busy: bool)
    requires Inv(s) && Enabled(s, EInterrupt(t, busy))
    ensures SameCounts(s, Step(s, EInterrupt(t, busy)))
  {
    InterruptOutcome(s, t, busy);
    hide Inv, Step, Interrupt;
  }

  /** The entries that change neither turns nor the number of signals owed. */
  predicate Plain(e: Event) {
    e.ESysCall? || e.EInterrupt? || e.EUnhold? || e.ERelease? || e.ENewMap? || e.ETrace? || e.EChangePriGroup?
  }

  lemma PlainCounts(s: State, e: Event)
    requires Inv(s) && Enabled(s, e) && Plain(e)
    ensures SameCounts(s, Step(s, e))
  {
    hide Inv, SameCounts;
    match e
    case ESysCall(call, srcDest, addressOk) => SysCallCounts(s, call, srcDest, addressOk);
    case EInterrupt(t, busy) => InterruptCounts(s, t, busy);
    case EUnhold => UnholdOutcome(s); ServedCounts(s, s.held, Step(s, e));
    case ERelease => ReleaseOutcome(s); ServedCounts(s, [s.held[0]], Step(s, e));
    case ENewMap(k) => NewMapCounts(s, k);
    case ETrace(p, request) => TraceCounts(s, p, request);
    case EChangePriGroup(pid) => FlipCounts(s, pid);
  }

  lemma NewMapCounts(s: State, k: int)
    requires Inv(s) && Enabled(s, ENewMap(k))
    ensures SameCounts(s, Step(s, ENewMap(k)))
  {
    NewMapOutcome(s, k);
    hide Inv, Step, NewMap;
  }

  lemma TraceCounts(s: State, p: nat, request: TraceRequest)
    requires Inv(s) && Enabled(s, ETrace(p, request))
    ensures SameCounts(s, Step(s, ETrace(p, request)))
  {
    TraceOutcome(s, p, request);
    hide Inv, Step, Trace;
  }

  lemma FlipCounts(s: State, pid: int)
    requires Inv(s)
    ensures SameCounts(s, ChangePriGroup(s, pid).0)
  {
    GroupsOk(s.nrTasks, s.proc);
    ChangePriGroupFlips(s, pid);
    hide Inv, ChangePriGroup;
  }

  // ------------------------------------------------------------------ signals

  /** How many signals p owes MM after e, if it owed c before: a new one counts one more, one that
      is ended one less, and a process that comes or goes owes none. */
  function NextOwed(s: State, e: Event, p: nat, c: nat): nat {
    match e
    case EFork(_, child, _) => if child == p then 0 else c
    case EExit(x) => if x == p then 0 else c
    case ECauseSig(x, sig) => if x == p < |s.proc| && sig !in s.proc[p].pending then c + 1 else c
    case EExec(x, traced, sig) => if x == p < |s.proc| && traced && sig !in s.proc[p].pending then c + 1 else c
    case EEndSig(x) => if x == p && c > 0 then c - 1 else c
    case _ => c
  }

  /** The turns taken and the divider change with sched() and set_scheduler() only. */
  ghost predicate SameTurns(s: State, e: Event, s': State) {
    && |s'.proc| == |s.proc|
    && (!e.ESched? ==> s'.history == s.history)
    && (!e.ESetScheduler? ==> s'.divider == s.divider)
  }

  ghost predicate Accounted(s: State, e: Event, s': State) {
    && SameTurns(s, e, s')
    && forall p: nat :: p < |s.proc| ==> s'.proc[p].pendCount == NextOwed(s, e, p, s.proc[p].pendCount)
  }

  lemma StoppedAccounted(s: State, p: nat, sig: nat, s': State)
    requires p < |s.proc| && sig !in s.proc[p].pending && Stopped(s, p, sig, s')
    ensures Accounted(s, ECauseSig(p, sig), s')
  {
  }

  lemma ToldAccounted(s: State, e: Event, s1: State, s': State)
    requires Accounted(s, e, s1) && SameCounts(s1, s')
    ensures Accounted(s, e, s')
  {
  }

  lemma CauseSigAccounted(s: State, p: nat, sig: nat)
    requires Inv(s) && Enabled(s, ECauseSig(p, sig))
    ensures Accounted(s, ECauseSig(p, sig), Step(s, ECauseSig(p, sig)))
  {
    CauseSigOutcome(s, p, sig);
    var r, s' := s.proc[p], Step(s, ECauseSig(p, sig));
    hide Inv, Enabled, Step, CauseSig, Stopped, InformedOf;
    if sig !in r.pending && r.pending == {} {
      if MmFree(s) {
        var s1: State :| Stopped(s, p, sig, s1) && 1 <= s1.nrTasks < |s1.proc| && InformedOf(s1, p, s');
        StoppedAccounted(s, p, sig, s1);
        InformedCounts(s1, p, s');
        ToldAccounted(s, ECauseSig(p, sig), s1, s');
      } else {
        StoppedAccounted(s, p, sig, s');
      }
    }
  }

  /** After the trap, exec itself changes no count. */
  lemma ExecAfterTrap(s: State, p: nat, traced: bool, sig: nat, s1: State, s': State)
    requires if traced then Accounted(s, ECauseSig(p, sig), s1) else s1 == s
    requires p < |s1.proc| && s' == s1.(proc := s1.proc[p := s1.proc[p].(receiving := false)], rdy := s'.rdy)
    ensures Accounted(s, EExec(p, traced, sig), s')
  {
  }

  lemma ExecAccounted(s: State, p: nat, traced: bool, sig: nat)
    requires Inv(s) && Enabled(s, EExec(p, traced, sig))
    ensures Accounted(s, EExec(p, traced, sig), Step(s, EExec(p, traced, sig)))
  {
    ExecOutcome(s, p, traced, sig);
    CauseSigAccounted(s, p, sig);
    hide Inv, Enabled, Step, CauseSig, Exec, Accounted, Readied;
    ExecAfterTrap(s, p, traced, sig, if traced then Step(s, ECauseSig(p, sig)) else s, Step(s, EExec(p, traced, sig)));
  }

  lemma EndSigAccounted(s: State, p: nat)
    requires Inv(s) && Enabled(s, EEndSig(p))
    ensures Accounted(s, EEndSig(p), Step(s, EEndSig(p)))
  {
    EndSigOutcome(s, p);
    assert SlotOk(s.nrTasks, p, s.proc[p]);
    hide Inv, Step, EndSig;
  }

  lemma ExitAccounted(s: State, p: nat)
    requires Inv(s) && Enabled(s, EExit(p))
    ensures Accounted(s, EExit(p), Step(s, EExit(p)))
  {
    ExitOutcome(s, p);
    hide Inv, Step, Exit;
  }

  lemma ForkAccounted(s: State, parent: nat, child: nat, pid: nat)
    requires Inv(s) && Enabled(s, EFork(parent, child, pid))
    ensures Accounted(s, EFork(parent, child, pid), Step(s, EFork(parent, child, pid)))
  {
    hide Inv;
  }

  lemma SchedAccounted(s: State)
    requires Inv(s) && Enabled(s, ESched)
    ensures Accounted(s, ESched, Step(s, ESched))
  {
    var n := SchedOutcome(s);
    hide Inv, Step, Sched;
  }

  lemma SetSchedulerAccounted(s: State, arg: int, pid: int)
    requires Inv(s) && Enabled(s, ESetScheduler(arg, pid))
    ensures Accounted(s, ESetScheduler(arg, pid), Step(s, ESetScheduler(arg, pid)))
  {
    hide Inv;
  }

  lemma StepAccounted(s: State, e: Event)
    requires Inv(s) && Enabled(s, e)
    ensures Accounted(s, e, Step(s, e))
  {
    if Plain(e) {
      PlainCounts(s, e);
      hide Inv, Step, Enabled;
    } else {
      hide Inv, Step, Enabled, Accounted;
      match e
      case ESched => SchedAccounted(s);
      case EFork(parent, child, pid) => ForkAccounted(s, parent, child, pid);
      case EExec(p, traced, sig) => ExecAccounted(s, p, traced, sig);
      case EExit(p) => ExitAccounted(s, p);
      case EEndSig(p) => EndSigAccounted(s, p);
      case ECauseSig(p, sig) => CauseSigAccounted(s, p, sig);
      case ESetScheduler(arg, pid) => SetSchedulerAccounted(s, arg, pid);
    }
  }

  lemma RunAccounted(nrTasks: nat, nrProcs: nat, states: seq<State>, events: seq<Event>, k: nat)
    requires IsRun(nrTasks, nrProcs, states, events) && k < |events|
    ensures Inv(states[k]) && Enabled(states[k], events[k]) && states[k + 1] == Step(states[k], events[k])
    ensures Accounted(states[k], events[k], states[k + 1])
  {
    RunsKeepInv(nrTasks, nrProcs, states, events, k);
    assert Leads(states[k], events[k], states[k + 1]);
    hide Inv, Enabled, Step, Boot;
    StepAccounted(states[k], events[k]);
  }

  lemma {:induction false} RunSize(nrTasks: nat, nrProcs: nat, states: seq<State>, events: seq<Event>, k: nat)
    requires IsRun(nrTasks, nrProcs, states, events) && k < |states|
    ensures |states[k].proc| == nrTasks + nrProcs
  {
    hide Leads, Boot, Inv, Enabled, Step;
    if k == 0 {
      BootOwesNothing(nrTasks, nrProcs, 0);
    } else {
      RunSize(nrTasks, nrProcs, states, events, k - 1);
      RunAccounted(nrTasks, nrProcs, states, events, k - 1);
    }
  }

  /** The signals p owes MM after the first k entries of a run. */
  function Owed(states: seq<State>, events: seq<Event>, k: nat, p: nat): nat
    requires k < |states| && k <= |events|
  {
    if k == 0 then 0 else NextOwed(states[k - 1], events[k - 1], p, Owed(states, events, k - 1, p))
  }

  lemma {:induction false} CountIsOwed(nrTasks: nat, nrProcs: nat, states: seq<State>, events: seq<Event>, k: nat, p: nat)
    requires IsRun(nrTasks, nrProcs, states, events) && k < |states| && p < nrTasks + nrProcs
    ensures p < |states[k].proc| && states[k].proc[p].pendCount == Owed(states, events, k, p)
    decreases k
  {
    hide Inv, Enabled, Step, Boot, Leads, NextOwed;
    RunSize(nrTasks, nrProcs, states, events, k);
    if k == 0 {
      BootOwesNothing(nrTasks, nrProcs, p);
    } else {
      CountIsOwed(nrTasks, nrProcs, states, events, k - 1, p);
      RunAccounted(nrTasks, nrProcs, states, events, k - 1);
    }
  }

  /** In every run p_pendcount is the number of signals for the process that were new when they came,
      less those MM has ended, counted from the fork of the process, and SIG_PENDING is set exactly
      while that is not zero. */
  lemma SignalsAreCounted(nrTasks: nat, nrProcs: nat, states: seq<State>, events: seq<Event>, k: nat, p: nat)
    requires IsRun(nrTasks, nrProcs, states, events) && k < |states| && p < nrTasks + nrProcs
    ensures p < |states[k].proc|
    ensures states[k].proc[p].pendCount == Owed(states, events, k, p)
    ensures states[k].proc[p].sigPending <==> Owed(states, events, k, p) > 0
  {
    CountIsOwed(nrTasks, nrProcs, states, events, k, p);
    RunsKeepInv(nrTasks, nrProcs, states, events, k);
    hide IsRun, Owed;
    SigPendingIff(states[k], p);
  }

  lemma SigPendingIff(s: State, p: nat)
    requires Inv(s) && p < |s.proc|
    ensures s.proc[p].sigPending <==> s.proc[p].pendCount > 0
  {
    assert SignalsOk(s.proc[p]);
  }

  lemma BootOwesNothing(nrTasks: nat, nrProcs: nat, p: nat)
    requires 7 <= nrTasks && 3 <= nrProcs && p < nrTasks + nrProcs
    ensures |Boot(nrTasks, nrProcs).proc| == nrTasks + nrProcs && Boot(nrTasks, nrProcs).proc[p].pendCount == 0
  {
    BootLoopQueues(nrTasks, nrProcs, nrTasks + 3);
    hide BootLoop;
  }

  // -------------------------------------------------------------------- turns

  /** The kernel entry e is a sched() that gives the turn to a process of this group. */
  ghost predicate GivesTurn(s: State, e: Event, s': State, group: nat) {
    && e.ESched? && |s.rdy| == 3 && s.rdy[USER_Q] != []
    && |s'.rdy| == 3 && s'.rdy[USER_Q] != [] && s'.rdy[USER_Q][0] < |s.proc|
    && s.proc[s'.rdy[USER_Q][0]].priGroup == group
  }

  /** The turns given to the group from state i to state j. */
  ghost function Turns(states: seq<State>, events: seq<Event>, i: nat, j: nat, group: nat): nat
    requires i <= j < |states| && j <= |events|
    decreases j
  {
    if i == j then 0
    else
      Turns(states, events, i, j - 1, group)
      + if GivesTurn(states[j - 1], events[j - 1], states[j], group) then 1 else 0
  }

  /** The calls of sched() that found a user ready. */
  ghost function SchedCalls(states: seq<State>, events: seq<Event>, i: nat, j: nat): nat
    requires i <= j < |states| && j <= |events|
    decreases j
  {
    if i == j then 0
    else
      SchedCalls(states, events, i, j - 1)
      + if events[j - 1].ESched? && |states[j - 1].rdy| == 3 && states[j - 1].rdy[USER_Q] != [] then 1 else 0
  }

  /** One entry: a turn is counted for the group that gets it, never beyond its quota. */
  lemma TurnStep(s: State, e: Event, s': State)
    requires Inv(s) && Enabled(s, e) && s' == Step(s, e) && s'.history.sum <= 200
    ensures s.history.sum <= s'.history.sum
    ensures s'.history.a == s.history.a + if GivesTurn(s, e, s', 0) then 1 else 0
    ensures s'.history.b == s.history.b + if GivesTurn(s, e, s', 1) then 1 else 0
    ensures GivesTurn(s, e, s', 0) ==> s'.history.a <= s.divider + 1
    ensures GivesTurn(s, e, s', 1) ==> s'.history.b <= 101 - s.divider
    ensures e.ESched? && |s.rdy| == 3 && s.rdy[USER_Q] != [] <==> GivesTurn(s, e, s', 0) || GivesTurn(s, e, s', 1)
    ensures !(GivesTurn(s, e, s', 0) && GivesTurn(s, e, s', 1))
  {
    StepAccounted(s, e);
    GroupsOk(s.nrTasks, s.proc);
    if e.ESched? {
      var n := SchedOutcome(s);
    }
    hide Inv, Step, Enabled, Sched;
  }

  /** In every run, while the divider stays d and until 200 rotations were made: the counters are the
      turns given, a group that gets a turn ends with at most d + 1 (A) or 101 - d (B), and each call
      that finds a user ready gives exactly one turn. */
  lemma {:induction false} SharesOverRuns(nrTasks: nat, nrProcs: nat, states: seq<State>, events: seq<Event>, i: nat, j: nat, d: int)
    requires IsRun(nrTasks, nrProcs, states, events) && i <= j < |states| == |events| + 1
    requires forall k :: i <= k <= j ==> states[k].divider == d
    requires states[j].history.sum <= 200
    ensures states[j].history.a == states[i].history.a + Turns(states, events, i, j, 0)
    ensures states[j].history.b == states[i].history.b + Turns(states, events, i, j, 1)
    ensures Turns(states, events, i, j, 0) > 0 ==> states[j].history.a <= d + 1
    ensures Turns(states, events, i, j, 1) > 0 ==> states[j].history.b <= 101 - d
    ensures Turns(states, events, i, j, 0) + Turns(states, events, i, j, 1) == SchedCalls(states, events, i, j)
    decreases j
  {
    hide IsRun, Inv, Enabled, Step, GivesTurn, Accounted;
    if i < j {
      RunAccounted(nrTasks, nrProcs, states, events, j - 1);
      TurnStep(states[j - 1], events[j - 1], states[j]);
      assert states[j - 1].divider == d;
      SharesOverRuns(nrTasks, nrProcs, states, events, i, j - 1, d);
    }
  }

  /** One call after 200 rotations. */
  lemma SchedRotates(s: State)
    requires Inv(s) && Enabled(s, ESched) && |s.rdy| == 3 && s.rdy[USER_Q] != [] && s.history.sum >= 200
    ensures var s' := Step(s, ESched);
      s'.rdy == s.rdy[USER_Q := Rotate(s.rdy[USER_Q])] && s'.history.sum == s.history.sum + 1
  {
    var n := SchedOutcome(s);
    hide Inv, Step, Enabled, Sched;
    assert RotateBy(s.rdy[USER_Q], 1) == Rotate(RotateBy(s.rdy[USER_Q], 0));
  }

  /** In every run, after 200 rotations, m calls of sched() in a row rotate the user queue m times. */
  lemma {:induction false} SchedsRotate(nrTasks: nat, nrProcs: nat, states: seq<State>, events: seq<Event>, i: nat, m: nat)
    requires IsRun(nrTasks, nrProcs, states, events) && i + m < |states|
    requires forall k :: i <= k < i + m ==> events[k] == ESched
    requires |states[i].rdy| == 3 && states[i].rdy[USER_Q] != [] && states[i].history.sum >= 200
    ensures states[i + m].rdy == states[i].rdy[USER_Q := RotateBy(states[i].rdy[USER_Q], m)]
    ensures states[i + m].history.sum == states[i].history.sum + m
    decreases m
  {
    hide Inv, Enabled, Step, Boot, Leads, Accounted;
    if m > 0 {
      SchedsRotate(nrTasks, nrProcs, states, events, i, m - 1);
      RunAccounted(nrTasks, nrProcs, states, events, i + m - 1);
      SchedRotates(states[i + m - 1]);
    }
  }

  /** ... so that the m-th process of the queue comes to its head, whatever its group, and after as
      many calls as there are users the queue is as it was. */
  lemma RoundRobinOverRuns(nrTasks: nat, nrProcs: nat, states: seq<State>, events: seq<Event>, i: nat, m: nat)
    requires IsRun(nrTasks, nrProcs, states, events) && i + m < |states|
    requires forall k :: i <= k < i + m ==> events[k] == ESched
    requires |states[i].rdy| == 3 && 0 < m <= |states[i].rdy[USER_Q]| && states[i].history.sum >= 200
    ensures var q, q' := states[i].rdy[USER_Q], states[i + m].rdy;
      |q'| == 3 && (if m < |q| then q'[USER_Q] != [] && q'[USER_Q][0] == q[m] else q'[USER_Q] == q)
  {
    SchedsRotate(nrTasks, nrProcs, states, events, i, m);
    RotateBySplit(states[i].rdy[USER_Q], m);
  }
}
