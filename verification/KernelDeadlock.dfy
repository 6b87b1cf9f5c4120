/** What the deadlock check of mini_send does not look at: processes that wait for one source. */
module KernelDeadlock {
  import opened Queues
  import opened KernelState
  import opened KernelInvariants
  import opened KernelMessages
  import opened KernelRuns

  /** A process that receives from one process only waits for that one, like a sender. */
  function Waits(r: Proc): Proc {
    if r.Waiting() && r.getFrom >= 0 then r.(sending := true, sendTo := r.getFrom) else r
  }

  /** The table with the p_getfrom edges of the receivers added to the p_sendto edges. */
  function WaitGraph(proc: seq<Proc>): seq<Proc> {
    seq(|proc|, i requires 0 <= i < |proc| => Waits(proc[i]))
  }

  lemma WaitGraphUpdate(proc: seq<Proc>, p: nat, r: Proc)
    requires p < |proc|
    ensures WaitGraph(proc[p := r]) == WaitGraph(proc)[p := Waits(r)]
  {
  }

  /** ELOCKED is right: what sends towards the caller also waits for it ... */
  lemma {:induction false} HopStays(proc: seq<Proc>, p: nat, k: nat)
    requires p < |proc| && Hop(proc, p, k) != NIL
    ensures Hop(WaitGraph(proc), p, k) == Hop(proc, p, k)
    decreases k
  {
    if k > 0 {
      var d := proc[p].sendTo;
      assert Hop(proc, p, k) == Hop(proc, d, k - 1) && Hop(WaitGraph(proc), p, k) == Hop(WaitGraph(proc), d, k - 1);
      if k > 1 {
        HopInside(proc, d, k - 1);
        HopStays(proc, d, k - 1);
      }
    }
  }

  lemma SendersWait(proc: seq<Proc>, d: nat, p: nat)
    requires d < |proc| && SendsTowards(proc, d, p)
    ensures SendsTowards(WaitGraph(proc), d, p)
  {
    var k: nat :| k >= 1 && Hop(proc, d, k) == p;
    HopStays(proc, d, k);
  }

  /** Blocking p on d closes a circle exactly when d is p or waits, directly or through others,
      for p. */
  lemma NewWaitIff(proc: seq<Proc>, p: nat, d: nat, r: Proc)
    requires Acyclic(WaitGraph(proc)) && p < |proc| && d < |proc|
    requires proc[p].Runnable() && Waits(r).sending && Waits(r).sendTo == d
    ensures Acyclic(WaitGraph(proc[p := r])) <==> d != p && !SendsTowards(WaitGraph(proc), d, p)
  {
    WaitGraphUpdate(proc, p, r);
    var g := WaitGraph(proc);
    if d != p {
      AddEdge(g, p, d, Waits(r));
    } else {
      TowardsStep(g[p := Waits(r)], p, p);
      if Acyclic(g[p := Waits(r)]) {
        AcyclicMeansNoCycle(g[p := Waits(r)], p);
      }
    }
  }

  /** ... but a send that succeeds keeps everybody's waiting free of circles if and only if its
      destination takes the message at once or does not wait for the caller in either way. */
  lemma SendKeepsWaitsIff(s: State, p: nat, dest: int, addressOk: bool)
    requires Core(s) && Sized(s) && MaySend(s, p, dest) && Acyclic(WaitGraph(s.proc))
    requires MiniSend(s, p, dest, addressOk).1 == OK
    ensures 0 <= dest < |s.proc|
    ensures Acyclic(WaitGraph(MiniSend(s, p, dest, addressOk).0.proc))
        <==> WaitsFor(s.proc[dest], p) || !SendsTowards(WaitGraph(s.proc), dest, p)
  {
    assert SlotOk(s.nrTasks, p, s.proc[p]);
    hide ReadyAgree, CallersAgree, NoMissed, SignalsAgree, HeldAgree, Acyclic, SendsTowards;
    if WaitsFor(s.proc[dest], p) {
      WaitEnds(s.proc, dest, s.proc[dest].(receiving := false));
    } else {
      NewWaitIff(s.proc, p, dest, s.proc[p].(sending := true, sendTo := dest));
    }
  }

  /** A process that waits no more closes no circle. */
  lemma WaitEnds(proc: seq<Proc>, p: nat, r: Proc)
    requires Acyclic(WaitGraph(proc)) && p < |proc| && !Waits(r).sending
    ensures Acyclic(WaitGraph(proc[p := r]))
  {
    WaitGraphUpdate(proc, p, r);
    AcyclicFrame(WaitGraph(proc), WaitGraph(proc)[p := Waits(r)]);
  }

  /** A process that blocks receiving from src alone does so if and only if src is another process
      that does not wait for it. */
  lemma AwaitKeepsWaitsIff(s: State, p: nat, src: nat)
    requires Core(s) && p < |s.proc| && s.proc[p].Runnable() && src < |s.proc| && Acyclic(WaitGraph(s.proc))
    ensures Acyclic(WaitGraph(AwaitMessage(s, p, src).proc))
        <==> src != p && !SendsTowards(WaitGraph(s.proc), src, p)
  {
    NewWaitIff(s.proc, p, src, s.proc[p].(getFrom := src, receiving := true));
  }

  // ------------------------------------------------------------- an example run

  /** The tasks in slots 0 to 2 head the task queue at boot. */
  lemma {:induction false} FirstTasks(nrTasks: nat, nrProcs: nat, t: nat)
    requires 9 <= nrTasks && 3 <= nrProcs && t <= nrTasks + 3
    ensures var q := BootLoop(nrTasks, nrProcs, t).rdy[TASK_Q];
      if t >= 3 then [0, 1, 2] <= q else q == [0, 1, 2][..t]
    decreases t
  {
    if t > 0 {
      FirstTasks(nrTasks, nrProcs, t - 1);
    }
  }

  /** k of the three tasks have made their calls: 0 receives from 2 only, 1 sends to 0, 2 to 1. */
  ghost predicate Stage(s: State, k: nat)
    requires k <= 3
  {
    && Inv(s) && Sized(s) && s.nrTasks >= 9 && s.sigProcs == 0
    && [0, 1, 2][k..] <= s.rdy[TASK_Q]
    && (forall i :: 0 <= i < 3 ==> s.proc[i].priority.Task? && !s.proc[i].intBlocked)
    && (if k > 0 then s.proc[0].Waiting() && s.proc[0].getFrom == 2 else s.proc[0].Runnable() && s.callerq[0] == [])
    && (if k > 1 then s.proc[1].sending && s.proc[1].sendTo == 0 else s.proc[1].Runnable())
    && (if k > 2 then s.proc[2].sending && s.proc[2].sendTo == 1 else s.proc[2].Runnable())
    && (k > 1 ==> !s.proc[1].receiving)
  }

  lemma BootStage(nrTasks: nat, nrProcs: nat)
    requires 9 <= nrTasks && 3 <= nrProcs
    ensures Stage(Boot(nrTasks, nrProcs), 0)
  {
    hide Inv, Boot;
    BootKeepsInv(nrTasks, nrProcs);
    BootHead(nrTasks, nrProcs);
    InvIsSized(Boot(nrTasks, nrProcs));
  }

  lemma BootHead(nrTasks: nat, nrProcs: nat)
    requires 9 <= nrTasks && 3 <= nrProcs
    ensures var s := Boot(nrTasks, nrProcs);
      && s.nrTasks == nrTasks && s.sigProcs == 0 && |s.rdy| == 3 && 3 <= |s.proc| == |s.callerq|
      && [0, 1, 2] <= s.rdy[TASK_Q] && s.callerq[0] == []
      && forall i :: 0 <= i < 3 ==> s.proc[i] == FreshProc(Task, 0)
  {
    FirstTasks(nrTasks, nrProcs, nrTasks + 3);
    BootLoopQueues(nrTasks, nrProcs, nrTasks + 3);
    hide BootLoop, BootQueued;
  }

  function NthCall(k: nat): Event
    requires k < 3
  {
    if k == 0 then ESysCall(Receive, 2, true) else ESysCall(Send, k - 1, true)
  }

  lemma StageRuns(s: State, k: nat)
    requires k < 3 && Stage(s, k)
    ensures s.procPtr == k < |s.proc| && Enabled(s, NthCall(k))
  {
    assert s.rdy[TASK_Q][0] == k;
    hide Core;
  }

  /** What task k's call does: it blocks, and the next task runs. */
  lemma NthBlocks(s: State, k: nat)
    requires k < 3 && Stage(s, k)
    ensures s.procPtr == k < |s.proc| && k < |s.callerq|
    ensures SysCall(s, NthCall(k).call, NthCall(k).srcDest, true)
         == ((if k == 0 then AwaitMessage(s, 0, 2) else Enqueue(s, k, k - 1)), OK)
  {
    StageRuns(s, k);
    hide Inv;
    if k == 1 {
      TowardsEnd(s.proc, 0, 1);
    } else if k == 2 {
      TowardsEnd(s.proc, 0, 2);
      TowardsStep(s.proc, 1, 2);
    }
  }

  lemma NextStage(s: State, k: nat)
    requires k < 3 && Stage(s, k)
    ensures Enabled(s, NthCall(k)) && Stage(Step(s, NthCall(k)), k + 1)
    ensures SysCall(s, NthCall(k).call, NthCall(k).srcDest, true).1 == OK
  {
    StageRuns(s, k);
    NthBlocks(s, k);
    StepKeepsInv(s, NthCall(k));
    CoreIsSized(Step(s, NthCall(k)));
    hide Inv, SysCall;
    assert s.rdy[TASK_Q][0] == k;
  }

  /** A run of three successful calls after which three tasks wait for each other for good. */
  lemma CircularWaitIsReached(nrTasks: nat, nrProcs: nat) returns (states: seq<State>, events: seq<Event>)
    requires 9 <= nrTasks && 3 <= nrProcs
    ensures |states| == 4 && IsRun(nrTasks, nrProcs, states, events)
    ensures events == [ESysCall(Receive, 2, true), ESysCall(Send, 0, true), ESysCall(Send, 1, true)]
    ensures !Acyclic(WaitGraph(states[3].proc))
  {
    hide Stage, Boot, Step, Enabled;
    var s0 := Boot(nrTasks, nrProcs);
    BootStage(nrTasks, nrProcs);
    NextStage(s0, 0);
    var s1 := Step(s0, NthCall(0));
    NextStage(s1, 1);
    var s2 := Step(s1, NthCall(1));
    NextStage(s2, 2);
    var s3 := Step(s2, NthCall(2));
    states, events := [s0, s1, s2, s3], [NthCall(0), NthCall(1), NthCall(2)];
    CircularWait(s3);
  }

  lemma CircularWait(s: State)
    requires Stage(s, 3)
    ensures !Acyclic(WaitGraph(s.proc))
  {
    var g := WaitGraph(s.proc);
    assert Hop(g, 0, 3) == Hop(g, 2, 2) == Hop(g, 1, 1) == Hop(g, 0, 0) == 0;
    if Acyclic(g) {
      AcyclicMeansNoCycle(g, 0);
    }
  }
}
