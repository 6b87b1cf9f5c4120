/** sys_call, mini_send, mini_rec and inform keep the invariants, and what they promise. */
module KernelMessages {
  import opened Queues
  import opened KernelState
  import opened KernelInvariants

  // ----------------------------------------------------------------- framing

  /** The two tables differ in no field that the caller queues depend on. */
  ghost predicate SameSends(proc: seq<Proc>, proc': seq<Proc>) {
    && |proc'| == |proc|
    && forall p :: 0 <= p < |proc| ==> SameSend(proc[p], proc'[p])
  }

  ghost predicate SameSend(r: Proc, r': Proc) {
    r'.sending == r.sending && r'.sendTo == r.sendTo && (r.priority.Vacant? <==> r'.priority.Vacant?)
  }

  lemma CallersFrame(nrTasks: nat, proc: seq<Proc>, proc': seq<Proc>, callerq: seq<seq<nat>>)
    requires CallersAgree(nrTasks, proc, callerq) && SameSends(proc, proc')
    ensures CallersAgree(nrTasks, proc', callerq)
  {
  }

  /** Removing edges keeps the graph acyclic. */
  lemma AcyclicFrame(proc: seq<Proc>, proc': seq<Proc>)
    requires Acyclic(proc) && |proc'| == |proc|
    requires forall p :: 0 <= p < |proc| && proc'[p].sending ==> proc[p].sending && proc'[p].sendTo == proc[p].sendTo
    ensures Acyclic(proc')
  {
    var rank :| Ranked(proc, rank);
    assert Ranked(proc', rank) by {
      forall p | 0 <= p < |proc'| && proc'[p].sending ensures Falls(proc', rank, p) {
        assert Falls(proc, rank, p);
      }
    }
  }

  lemma SignalsFrame(proc: seq<Proc>, sigProcs: int, p: nat, r: Proc)
    requires SignalsAgree(proc, sigProcs) && p < |proc|
    requires SignalsOk(r) && r.pendingFlag == proc[p].pendingFlag
    ensures SignalsAgree(proc[p := r], sigProcs)
  {
    assert PendingSlots(proc[p := r]) == PendingSlots(proc);
  }

  /** Only p's record changed: the others still miss nothing. */
  lemma MissedFrame(nrTasks: nat, proc: seq<Proc>, callerq: seq<seq<nat>>, p: nat, r: Proc)
    requires NoMissed(nrTasks, proc, callerq) && p < |proc|
    requires r.receiving ==> ReceiverOk(nrTasks, r, callerq[p])
    ensures NoMissed(nrTasks, proc[p := r], callerq)
  {
  }

  lemma HeldFrame(proc: seq<Proc>, held: seq<nat>, p: nat, r: Proc)
    requires HeldAgree(proc, held) && p < |proc| && r.intHeld == proc[p].intHeld
    ensures HeldAgree(proc[p := r], held)
  {
  }

  /** A new record for p that leaves alone its sending and its place in the held queue, with the
      ready queues and the count of pending processes to match, keeps Core. */
  lemma RecordChangeAny(s: State, s': State, p: nat, r: Proc)
    requires Core(s) && p < |s.proc|
    requires s' == s.(proc := s.proc[p := r], rdy := s'.rdy, procPtr := s'.procPtr, sigProcs := s'.sigProcs, log := s'.log)
    requires SlotOk(s.nrTasks, p, r) && SameSend(s.proc[p], r) && r.intHeld == s.proc[p].intHeld
    requires r.receiving ==> ReceiverOk(s.nrTasks, r, s.callerq[p])
    requires SignalsAgree(s'.proc, s'.sigProcs)
    requires ReadyAgree(s.nrTasks, s'.proc, s'.rdy)
    ensures Core(s')
  {
    assert SameSends(s.proc, s'.proc);
    CallersFrame(s.nrTasks, s.proc, s'.proc, s.callerq);
    AcyclicFrame(s.proc, s'.proc);
    MissedFrame(s.nrTasks, s.proc, s.callerq, p, r);
    HeldFrame(s.proc, s.held, p, r);
  }

  /** The usual case: p is as pending as it was. */
  lemma RecordChange(s: State, s': State, p: nat, r: Proc)
    requires Core(s) && p < |s.proc|
    requires s' == s.(proc := s.proc[p := r], rdy := s'.rdy, procPtr := s'.procPtr, log := s'.log)
    requires SlotOk(s.nrTasks, p, r) && SameSend(s.proc[p], r)
    requires SignalsOk(r) && r.pendingFlag == s.proc[p].pendingFlag && r.intHeld == s.proc[p].intHeld
    requires r.receiving ==> ReceiverOk(s.nrTasks, r, s.callerq[p])
    requires ReadyAgree(s.nrTasks, s'.proc, s'.rdy)
    ensures Core(s')
  {
    SignalsFrame(s.proc, s.sigProcs, p, r);
    RecordChangeAny(s, s', p, r);
  }

  // ---------------------------------------------------------- the send graph

  lemma {:induction false} HopRanked(proc: seq<Proc>, rank: seq<nat>, p: nat, k: nat)
    requires Ranked(proc, rank) && p < |proc| && k >= 1
    ensures var h := Hop(proc, p, k); h == NIL || (0 <= h < |proc| && rank[h] < rank[p])
    decreases k
  {
    if proc[p].sending {
      assert Falls(proc, rank, p);
      assert Hop(proc, p, k) == Hop(proc, proc[p].sendTo, k - 1);
      if k > 1 {
        HopRanked(proc, rank, proc[p].sendTo, k - 1);
      }
    }
  }

  /** In an acyclic graph no process is waiting, directly or through others, to send to itself. */
  lemma AcyclicMeansNoCycle(proc: seq<Proc>, p: nat)
    requires Acyclic(proc) && p < |proc|
    ensures !SendsTowards(proc, p, p)
  {
    var rank :| Ranked(proc, rank);
    if SendsTowards(proc, p, p) {
      var k: nat :| k >= 1 && Hop(proc, p, k) == p;
      HopRanked(proc, rank, p, k);
    }
  }

  /** One hop further. */
  lemma TowardsStep(proc: seq<Proc>, p: nat, target: nat)
    requires p < |proc| && proc[p].sending && 0 <= proc[p].sendTo < |proc|
    ensures SendsTowards(proc, p, target) <==>
            proc[p].sendTo == target || SendsTowards(proc, proc[p].sendTo, target)
  {
    var d := proc[p].sendTo;
    if d == target {
      assert Hop(proc, p, 1) == Hop(proc, d, 0) == target;
    }
    if SendsTowards(proc, d, target) {
      var k: nat :| k >= 1 && Hop(proc, d, k) == target;
      assert Hop(proc, p, k + 1) == target;
    }
    if SendsTowards(proc, p, target) {
      var k: nat :| k >= 1 && Hop(proc, p, k) == target;
      assert Hop(proc, p, k) == Hop(proc, d, k - 1);
      if k == 1 {
        assert d == target;
      } else {
        assert k - 1 >= 1;
      }
    }
  }

  lemma TowardsEnd(proc: seq<Proc>, p: nat, target: nat)
    requires p < |proc| && !proc[p].sending
    ensures !SendsTowards(proc, p, target)
  {
  }

  /** The new edge p -> d closes a cycle exactly when d already sends towards p: lifting
      everything that sends towards p above d ranks the graph with the edge. */
  lemma AddEdge(proc: seq<Proc>, p: nat, d: nat, r: Proc)
    requires Acyclic(proc) && p < |proc| && d < |proc| && p != d && !proc[p].sending
    requires r.sending && r.sendTo == d
    ensures Acyclic(proc[p := r]) <==> !SendsTowards(proc, d, p)
  {
    if SendsTowards(proc, d, p) {
      var k: nat :| k >= 1 && Hop(proc, d, k) == p;
      HopAvoids(proc, proc[p := r], d, p, k);
      TowardsStep(proc[p := r], p, p);
      if Acyclic(proc[p := r]) {
        AcyclicMeansNoCycle(proc[p := r], p);
      }
    } else {
      var rank :| Ranked(proc, rank);
      var proc' := proc[p := r];
      var lift: seq<nat> := seq(|proc|, q requires 0 <= q < |proc| =>
        if q == p || SendsTowards(proc, q, p) then rank[q] + rank[d] + 1 else rank[q]);
      forall q | 0 <= q < |proc| && proc'[q].sending ensures Falls(proc', lift, q) {
        if q != p {
          assert Falls(proc, rank, q);
          TowardsStep(proc, q, p);
        }
      }
      assert Ranked(proc', lift);
    }
  }

  lemma HopInside(proc: seq<Proc>, e: int, k: nat)
    requires k >= 1 && Hop(proc, e, k) != NIL
    ensures 0 <= e < |proc|
  {
  }

  /** A path to p in the old graph, cut at its first visit of p, is there in the new one. */
  lemma {:induction false} HopAvoids(proc: seq<Proc>, proc': seq<Proc>, d: nat, p: nat, k: nat)
    requires d < |proc| && p < |proc| && |proc'| == |proc| && d != p && !proc[p].sending
    requires forall q :: 0 <= q < |proc| && q != p ==> proc'[q] == proc[q]
    requires k >= 1 && Hop(proc, d, k) == p
    ensures SendsTowards(proc', d, p)
    decreases k
  {
    assert proc[d].sending && Hop(proc, d, k) == Hop(proc, proc[d].sendTo, k - 1);
    var e := proc[d].sendTo;
    if e == p {
      assert Hop(proc', d, 1) == Hop(proc', e, 0) == p;
    } else {
      assert k > 1;
      HopInside(proc, e, k - 1);
      HopAvoids(proc, proc', e, p, k - 1);
      TowardsStep(proc', d, p);
    }
  }

  // --------------------------------------------------------------- mini_send

  /** A message handed to a process that waits for it. */
  lemma DeliverKeepsCore(s: State, source: nat, d: nat)
    requires Core(s) && source < |s.proc| && d < |s.proc| && WaitsFor(s.proc[d], source)
    ensures Core(Deliver(s, source, d))
  {
    var r := s.proc[d].(receiving := false);
    assert SlotOk(s.nrTasks, d, s.proc[d]);
    WakeReady(s, d, r);
    RecordChange(s, Deliver(s, source, d), d, r);
  }

  /** A sender that blocks on a process not waiting for it. */
  lemma EnqueueKeepsCore(s: State, p: nat, d: nat)
    requires Core(s) && p < |s.proc| && d < |s.proc| && p != d
    requires s.proc[p].Runnable() && p != HardwareSlot(s.nrTasks) && p != IdleSlot(s.nrTasks)
    requires !s.proc[p].priority.Vacant? && !s.proc[d].priority.Vacant? && d != HardwareSlot(s.nrTasks)
    requires !WaitsFor(s.proc[d], p) && !SendsTowards(s.proc, d, p)
    ensures Core(Enqueue(s, p, d))
  {
    var r := s.proc[p].(sending := true, sendTo := d);
    var s' := Enqueue(s, p, d);
    assert SlotOk(s.nrTasks, p, r) by { assert SlotOk(s.nrTasks, p, s.proc[p]); }
    BlockReady(s, p, r);
    AddEdge(s.proc, p, d, r);
    EnqueueCallers(s.nrTasks, s.proc, s.callerq, p, d, r);
    assert SignalsOk(s.proc[p]);
    SignalsFrame(s.proc, s.sigProcs, p, r);
    HeldFrame(s.proc, s.held, p, r);
    EnqueueMissed(s.nrTasks, s.proc, s.callerq, p, d, r);
  }

  lemma EnqueueCallers(nrTasks: nat, proc: seq<Proc>, callerq: seq<seq<nat>>, p: nat, d: nat, r: Proc)
    requires CallersAgree(nrTasks, proc, callerq) && p < |proc| && d < |proc| && p != d
    requires !proc[p].sending && r.sending && r.sendTo == d
    requires !proc[d].priority.Vacant? && d != HardwareSlot(nrTasks)
    requires !r.priority.Vacant? && !proc[p].priority.Vacant?
    ensures CallersAgree(nrTasks, proc[p := r], callerq[d := callerq[d] + [p]])
  {
    var proc', callerq' := proc[p := r], callerq[d := callerq[d] + [p]];
    assert p !in callerq[d];
    AppendMembers(callerq[d], p);
    forall q | 0 <= q < |proc'| && proc'[q].sending ensures SendingOk(nrTasks, proc', callerq', q) {
      if q != p {
        assert SendingOk(nrTasks, proc, callerq, q);
      }
    }
  }

  lemma EnqueueMissed(nrTasks: nat, proc: seq<Proc>, callerq: seq<seq<nat>>, p: nat, d: nat, r: Proc)
    requires NoMissed(nrTasks, proc, callerq) && p < |proc| && d < |proc| && p != d
    requires !r.receiving && !WaitsFor(proc[d], p)
    ensures NoMissed(nrTasks, proc[p := r], callerq[d := callerq[d] + [p]])
  {
  }

  /** mini_send by a process allowed to send (HARDWARE only when it is awaited). */
  ghost predicate MaySend(s: State, p: nat, dest: int) {
    && p < |s.proc| && s.proc[p].Runnable()
    && !s.proc[p].priority.Vacant? && !s.proc[p].priority.IdleClass?
    && (s.proc[p].priority.User? ||
        (0 <= dest < |s.proc| && dest != p && dest != HardwareSlot(s.nrTasks)))
    && (p == HardwareSlot(s.nrTasks) ==> 0 <= dest < |s.proc| && WaitsFor(s.proc[dest], p))
  }

  lemma MiniSendKeepsCore(s: State, p: nat, dest: int, addressOk: bool)
    requires Core(s) && MaySend(s, p, dest)
    ensures Core(MiniSend(s, p, dest, addressOk).0)
  {
    assert SlotOk(s.nrTasks, p, s.proc[p]);
    if s.proc[p].priority.User? && !IsSys(s.nrTasks, dest) {
    } else if s.proc[dest].priority.Vacant? || !addressOk || SendsTowards(s.proc, dest, p) {
    } else if WaitsFor(s.proc[dest], p) {
      DeliverKeepsCore(s, p, dest);
    } else {
      EnqueueKeepsCore(s, p, dest);
    }
  }

  /** ELOCKED is returned exactly when queueing the caller would close a cycle of senders. */
  lemma LockedIffCycle(s: State, p: nat, dest: nat)
    requires Core(s) && MaySend(s, p, dest)
    requires !s.proc[p].priority.User? || IsSys(s.nrTasks, dest)
    requires dest < |s.proc| && !s.proc[dest].priority.Vacant?
    ensures MiniSend(s, p, dest, true).1 == ELocked
            <==> !Acyclic(s.proc[p := s.proc[p].(sending := true, sendTo := dest)])
  {
    assert SlotOk(s.nrTasks, p, s.proc[p]);
    assert SlotOk(s.nrTasks, dest, s.proc[dest]);
    AddEdge(s.proc, p, dest, s.proc[p].(sending := true, sendTo := dest));
  }

  /** The check does not see a process that sends to itself, which is then queued on itself: a
      send keeps the graph acyclic exactly when its destination is another process. */
  lemma SendKeepsAcyclicIff(s: State, p: nat, dest: nat)
    requires Core(s) && p < |s.proc| && CanRun(s.nrTasks, p, s.proc[p]) && !s.proc[p].priority.User?
    requires dest < |s.proc| && dest != HardwareSlot(s.nrTasks)
    ensures Acyclic(MiniSend(s, p, dest, true).0.proc) <==> dest != p
  {
    if dest == p {
      TowardsEnd(s.proc, p, p);
      var proc' := MiniSend(s, p, p, true).0.proc;
      TowardsStep(proc', p, p);
      if Acyclic(proc') {
        AcyclicMeansNoCycle(proc', p);
      }
    } else {
      assert SlotOk(s.nrTasks, p, s.proc[p]);
      MiniSendKeepsCore(s, p, dest, true);
    }
  }

  // ---------------------------------------------------------------- mini_rec

  /** The i-th sender leaves p's caller queue and, with no other flag, is ready again. */
  lemma DequeueKeepsCore(s: State, p: nat, i: nat)
    requires Core(s) && p < |s.proc| && s.proc[p].Runnable() && i < |s.callerq[p]|
    ensures Sized(s) && Core(Dequeue(s, p, i))
  {
    CoreIsSized(s);
    var q := s.callerq[p][i];
    assert q in s.callerq[p];
    var r := s.proc[q].(sending := false);
    var s' := Dequeue(s, p, i);
    hide ReadyAgree;
    assert SlotOk(s.nrTasks, q, s.proc[q]);
    WakeReady(s, q, r);
    AcyclicFrame(s.proc, s'.proc);
    DequeueCallers(s.nrTasks, s.proc, s.callerq, p, i, r);
    assert SignalsOk(s.proc[q]);
    SignalsFrame(s.proc, s.sigProcs, q, r);
    HeldFrame(s.proc, s.held, q, r);
    DequeueMissed(s.nrTasks, s.proc, s.callerq, p, i, r);
  }

  lemma DequeueCallers(nrTasks: nat, proc: seq<Proc>, callerq: seq<seq<nat>>, p: nat, i: nat, r: Proc)
    requires CallersAgree(nrTasks, proc, callerq) && p < |proc| && i < |callerq[p]|
    requires var q := callerq[p][i]; q < |proc| && !r.sending && r.priority == proc[q].priority
    ensures CallersAgree(nrTasks, proc[callerq[p][i] := r], callerq[p := Without(callerq[p], i)])
  {
    var q := callerq[p][i];
    var proc', callerq' := proc[q := r], callerq[p := Without(callerq[p], i)];
    WithoutMembers(callerq[p], i);
    assert q in callerq[p];
    forall x | 0 <= x < |proc'| && proc'[x].sending ensures SendingOk(nrTasks, proc', callerq', x) {
      assert SendingOk(nrTasks, proc, callerq, x);
    }
  }

  /** The sender released from a send-and-receive waits for p, which is not sending and so is in
      nobody's queue. */
  lemma DequeueMissed(nrTasks: nat, proc: seq<Proc>, callerq: seq<seq<nat>>, p: nat, i: nat, r: Proc)
    requires NoMissed(nrTasks, proc, callerq) && CallersAgree(nrTasks, proc, callerq)
    requires p < |proc| && i < |callerq[p]| && callerq[p][i] < |proc|
    requires !proc[p].sending && !proc[p].receiving && p != HardwareSlot(nrTasks)
    requires r == proc[callerq[p][i]].(sending := false)
    ensures NoMissed(nrTasks, proc[callerq[p][i] := r], callerq[p := Without(callerq[p], i)])
  {
    var q := callerq[p][i];
    var proc', callerq' := proc[q := r], callerq[p := Without(callerq[p], i)];
    assert q in callerq[p];
    assert p !in callerq[q];
    forall x | 0 <= x < |proc'| && proc'[x].receiving ensures ReceiverOk(nrTasks, proc'[x], callerq'[x]) {
      assert ReceiverOk(nrTasks, proc[x], callerq[x]);
    }
  }

  lemma TakeInterruptKeepsCore(s: State, p: nat)
    requires Core(s) && p < |s.proc| && s.proc[p].Runnable() && s.proc[p].intBlocked
    ensures Core(TakeInterrupt(s, p))
  {
    var r := s.proc[p].(intBlocked := false);
    assert SlotOk(s.nrTasks, p, s.proc[p]);
    assert SignalsOk(s.proc[p]);
    RecordChange(s, TakeInterrupt(s, p), p, r);
  }

  /** Who may call mini_rec: the running process, perhaps just blocked by its own send. */
  ghost predicate MayReceive(s: State, p: nat, src: int) {
    && p < |s.proc| && CanRun(s.nrTasks, p, s.proc[p].(sending := false))
    && (s.proc[p].sending ==> s.proc[p].sendTo == src)
  }

  /** p finds nothing it would accept, so waiting misses nothing. */
  lemma AwaitKeepsCore(s: State, p: nat, src: int)
    requires Core(s) && MayReceive(s, p, src)
    requires !s.proc[p].sending ==> FirstMatch(s.callerq[p], src) == |s.callerq[p]|
    requires !s.proc[p].sending && s.proc[p].intBlocked ==> !Accepts(src, HardwareSlot(s.nrTasks))
    ensures Core(AwaitMessage(s, p, src))
  {
    var r := s.proc[p].(getFrom := src, receiving := true);
    assert SlotOk(s.nrTasks, p, s.proc[p]);
    assert SignalsOk(s.proc[p]);
    FirstMatchIsFirst(s.callerq[p], src);
    BlockReady(s, p, r);
    RecordChange(s, AwaitMessage(s, p, src), p, r);
  }

  // ------------------------------------------------------------------ inform

  lemma CountedIsPending(proc: seq<Proc>, sigProcs: int, nrTasks: nat)
    requires SignalsAgree(proc, sigProcs) && Shape(nrTasks, proc)
    ensures sigProcs > 0 <==> FirstPending(proc, nrTasks) < |proc|
  {
    var p := FirstPending(proc, nrTasks);
    if p < |proc| {
      assert p in PendingSlots(proc);
    } else {
      forall q | 0 <= q < |proc| ensures !proc[q].pendingFlag {
        assert SlotOk(nrTasks, q, proc[q]) && SignalsOk(proc[q]);
      }
      assert PendingSlots(proc) == {};
    }
  }

  lemma RealDestination(nrTasks: nat, proc: seq<Proc>, callerq: seq<seq<nat>>, q: nat)
    requires CallersAgree(nrTasks, proc, callerq) && q < |proc|
    ensures proc[q].sending ==> 0 <= proc[q].sendTo < |proc|
  {
  }

  /** MM, when it waits for anything, waits for HARDWARE too and is not sending. */
  lemma MmTakesHardware(s: State)
    requires Core(s) && s.proc[MmSlot(s.nrTasks)].receiving && s.proc[MmSlot(s.nrTasks)].getFrom == ANY
    ensures WaitsFor(s.proc[MmSlot(s.nrTasks)], HardwareSlot(s.nrTasks))
    ensures !SendsTowards(s.proc, MmSlot(s.nrTasks), HardwareSlot(s.nrTasks))
    ensures s.proc[MmSlot(s.nrTasks)].priority.Server?
    ensures s.proc[HardwareSlot(s.nrTasks)].priority.Task?
  {
  }

  /** MM is waiting for anything and some process has signals for it: inform() finds such a
      process, and its send to MM is delivered, so the kernel does not panic. */
  lemma InformSucceeds(s: State)
    requires Core(s) && s.sigProcs > 0
    requires s.proc[MmSlot(s.nrTasks)].receiving && s.proc[MmSlot(s.nrTasks)].getFrom == ANY
    ensures Sized(s) && FirstPending(s.proc, s.nrTasks) < |s.proc|
    ensures var s0 := s.(sigProcs := s.sigProcs - 1);
            MiniSend(s0, HardwareSlot(s.nrTasks), MmSlot(s.nrTasks), true)
            == (Deliver(s0, HardwareSlot(s.nrTasks), MmSlot(s.nrTasks)), OK)
    ensures Inform(s) == PickProc(HandOver(Deliver(s, HardwareSlot(s.nrTasks), MmSlot(s.nrTasks)).(sigProcs := s.sigProcs - 1),
                                           FirstPending(s.proc, s.nrTasks)))
  {
    CoreIsSized(s);
    CountedIsPending(s.proc, s.sigProcs, s.nrTasks);
    MmTakesHardware(s);
  }

  lemma InformKeepsCore(s: State)
    requires Core(s) && s.sigProcs > 0
    requires s.proc[MmSlot(s.nrTasks)].receiving && s.proc[MmSlot(s.nrTasks)].getFrom == ANY
    ensures Sized(s) && Core(Inform(s)) && Dispatched(Inform(s)) && MmInformed(Inform(s))
  {
    hide CallersAgree, Acyclic, NoMissed, HeldAgree, ReadyAgree;
    InformSucceeds(s);
    MmTakesHardware(s);
    var hw, mm, p := HardwareSlot(s.nrTasks), MmSlot(s.nrTasks), FirstPending(s.proc, s.nrTasks);
    DeliverKeepsCore(s, hw, mm);
    assert SignalsOk(s.proc[p]) && SlotOk(s.nrTasks, mm, s.proc[mm]) && SignalsOk(s.proc[mm]);
    HandOverKeepsCore(Deliver(s, hw, mm), p);
  }

  /** Handing p's signals to MM moves them from pending to handed. */
  lemma HandOverKeepsCore(s: State, p: nat)
    requires Core(s) && p < |s.proc| && s.proc[p].pendingFlag
    ensures Core(PickProc(HandOver(s.(sigProcs := s.sigProcs - 1), p)))
  {
    var r := s.proc[p].(pending := {}, pendingFlag := false, handed := s.proc[p].handed + |s.proc[p].pending|);
    assert SlotOk(s.nrTasks, p, s.proc[p]) && SignalsOk(s.proc[p]);
    assert p in PendingSlots(s.proc);
    assert PendingSlots(s.proc[p := r]) == PendingSlots(s.proc) - {p};
    HandOverReady(s.nrTasks, s.proc, s.rdy, p, r);
    RecordChangeAny(s, PickProc(HandOver(s.(sigProcs := s.sigProcs - 1), p)), p, r);
  }

  /** A change between two blocked records touches no ready queue. */
  lemma HandOverReady(nrTasks: nat, proc: seq<Proc>, rdy: seq<seq<nat>>, p: nat, r: Proc)
    requires ReadyAgree(nrTasks, proc, rdy) && p < |proc|
    requires r.priority == proc[p].priority && !r.Runnable() && !proc[p].Runnable()
    ensures ReadyAgree(nrTasks, proc[p := r], rdy)
  {
  }

  lemma MiniRecKeepsCore(s: State, p: nat, src: int)
    requires Core(s) && MayReceive(s, p, src)
    requires MmInformed(s)
    ensures Sized(s) && Core(MiniRec(s, p, src)) && MmInformed(MiniRec(s, p, src))
  {
    CoreIsSized(s);
    FirstMatchIsFirst(s.callerq[p], src);
    var i, mm := FirstMatch(s.callerq[p], src), MmSlot(s.nrTasks);
    if !s.proc[p].sending && i < |s.callerq[p]| {
      DequeueKeepsCore(s, p, i);
    } else if !s.proc[p].sending && s.proc[p].intBlocked && Accepts(src, HardwareSlot(s.nrTasks)) {
      TakeInterruptKeepsCore(s, p);
    } else {
      AwaitKeepsCore(s, p, src);
      var s1 := AwaitMessage(s, p, src);
      if s1.sigProcs > 0 && p == mm && src == ANY {
        InformKeepsCore(s1);
      } else if p == mm && src == ANY {
        assert s1.sigProcs >= 0;
      }
    }
  }

  // ---------------------------------------------------------------- sys_call

  /** The environment's part: somebody is running, and a task or server that sends names
      another process, which is not HARDWARE. */
  ghost predicate MaySysCall(s: State, call: Call, srcDest: int)
    requires s.procPtr < |s.proc| && 1 <= s.nrTasks
  {
    && s.procPtr != IdleSlot(s.nrTasks)
    && (s.proc[s.procPtr].priority.User? || call.Receive? ||
        (srcDest != ANY && srcDest != s.procPtr && srcDest != HardwareSlot(s.nrTasks)))
  }

  /** dest waited for p and so is not queued anywhere: p cannot find it among its own callers. */
  lemma NoReplyYet(s: State, p: nat, dest: nat)
    requires Core(s) && p < |s.proc| && dest < |s.proc| && dest != HardwareSlot(s.nrTasks) && p != dest
    requires WaitsFor(s.proc[dest], p)
    ensures FirstMatch(Deliver(s, p, dest).callerq[p], dest) == |Deliver(s, p, dest).callerq[p]|
  {
    assert dest !in s.callerq[p];
    FirstMatchAbsent(s.callerq[p], dest);
  }

  lemma {:induction false} FirstMatchAbsent(q: seq<nat>, src: nat)
    requires src !in q
    ensures FirstMatch(q, src) == |q|
  {
    if q != [] {
      FirstMatchAbsent(q[1..], src);
    }
  }

  /** A send-and-receive that returns OK has blocked its caller: it can run no more, waits for a
      message from the process it sent to, and never got one at once. */
  lemma BothBlocks(s: State, srcDest: int, addressOk: bool)
    requires Inv(s) && s.procPtr < |s.proc| && MaySysCall(s, Both, srcDest)
    ensures Sized(s)
    ensures var (s', code) := SysCall(s, Both, srcDest, addressOk);
            var p := s.procPtr;
            code == OK ==>
              && s'.procPtr != p
              && p < |s'.proc| && s'.proc[p].receiving && s'.proc[p].getFrom == srcDest
              && (forall c :: 0 <= c < 3 ==> p !in s'.rdy[c])
  {
    hide ReadyAgree, CallersAgree, Acyclic, NoMissed, SignalsAgree, HeldAgree, Shape;
    InvIsSized(s);
    RunningIsReal(s);
    if SysCall(s, Both, srcDest, addressOk).1 == OK {
      BothAwaits(s, srcDest, addressOk);
      SysCallKeepsInv(s, Both, srcDest, addressOk);
      BlockedIsUnqueued(SysCall(s, Both, srcDest, addressOk).0, s.procPtr);
    }
  }

  /** A process with a flag is on no ready queue and does not run. */
  lemma BlockedIsUnqueued(s: State, p: nat)
    requires Inv(s) && p < |s.proc| && !s.proc[p].Runnable()
    ensures s.procPtr != p && |s.rdy| == 3 && forall c :: 0 <= c < 3 ==> p !in s.rdy[c]
  {
    RunningIsReal(s);
  }

  /** The receive half of a send-and-receive waits. */
  lemma BothAwaits(s: State, srcDest: int, addressOk: bool)
    requires Inv(s) && Sized(s) && s.procPtr < |s.proc| && MaySysCall(s, Both, srcDest)
    requires SysCall(s, Both, srcDest, addressOk).1 == OK
    ensures 0 <= srcDest < |s.proc| && srcDest != s.procPtr && srcDest != HardwareSlot(s.nrTasks)
    ensures MiniSend(s, s.procPtr, srcDest, addressOk).1 == OK
    ensures SysCall(s, Both, srcDest, addressOk).0
            == AwaitMessage(MiniSend(s, s.procPtr, srcDest, addressOk).0, s.procPtr, srcDest)
  {
    var p := s.procPtr;
    RunningIsReal(s);
    assert SlotOk(s.nrTasks, p, s.proc[p]);
    SendKeepsSized(s, p, srcDest, addressOk);
    if WaitsFor(s.proc[srcDest], p) {
      NoReplyYet(s, p, srcDest);
    }
  }

  lemma SendKeepsInformed(s: State, p: nat, dest: int, addressOk: bool)
    requires Core(s) && MmInformed(s) && MaySend(s, p, dest)
    ensures Sized(s) && MmInformed(MiniSend(s, p, dest, addressOk).0)
  {
  }

  lemma SysCallKeepsCore(s: State, call: Call, srcDest: int, addressOk: bool)
    requires Inv(s) && s.procPtr < |s.proc| && MaySysCall(s, call, srcDest)
    ensures Sized(s)
    ensures Core(SysCall(s, call, srcDest, addressOk).0) && MmInformed(SysCall(s, call, srcDest, addressOk).0)
  {
    hide ReadyAgree, CallersAgree, Acyclic, NoMissed, SignalsAgree, HeldAgree, Wake, Block;
    CoreIsSized(s);
    RunningIsReal(s);
    var p := s.procPtr;
    assert SlotOk(s.nrTasks, p, s.proc[p]);
    if !(0 <= srcDest < |s.proc| || srcDest == ANY) || (s.proc[p].priority.User? && !call.Both?) {
    } else if call.Receive? {
      MiniRecKeepsCore(s, p, srcDest);
    } else {
      MiniSendKeepsCore(s, p, srcDest, addressOk);
      SendKeepsInformed(s, p, srcDest, addressOk);
      var (s1, code) := MiniSend(s, p, srcDest, addressOk);
      if call.Both? && code == OK {
        MiniRecKeepsCore(s1, p, srcDest);
      }
    }
  }

  /** mini_send leaves the head of the highest queue running, unless a user wakes a server. */
  lemma SendDispatched(s: State, p: nat, dest: nat, addressOk: bool)
    requires Core(s) && Sized(s) && Dispatched(s) && MaySend(s, p, dest) && s.procPtr == p
    requires !s.proc[p].priority.User? || (IsSys(s.nrTasks, dest) && !WaitsFor(s.proc[dest], p))
    ensures Dispatched(MiniSend(s, p, dest, addressOk).0)
  {
    RunningIsReal(s);
    assert SlotOk(s.nrTasks, p, s.proc[p]);
    BlockDispatched(s, p, s.proc[p].(sending := true, sendTo := dest));
    if WaitsFor(s.proc[dest], p) {
      WakeDispatched(s, dest, s.proc[dest].(receiving := false));
    }
  }

  lemma ReceiveDispatched(s: State, p: nat, src: int)
    requires Core(s) && Sized(s) && Dispatched(s) && MayReceive(s, p, src) && MmInformed(s)
    requires s.rdy[TASK_Q] != [] || s.rdy[SERVER_Q] != []
    ensures Dispatched(MiniRec(s, p, src))
  {
    FirstMatchIsFirst(s.callerq[p], src);
    var i := FirstMatch(s.callerq[p], src);
    if !s.proc[p].sending && i < |s.callerq[p]| {
      var q := s.callerq[p][i];
      assert q in s.callerq[p];
      var s1 := s.(callerq := s.callerq[p := Without(s.callerq[p], i)], log := s.log + [Delivery(q, p)]);
      WakeDispatched(s1, q, s.proc[q].(sending := false));
    } else if !s.proc[p].sending && s.proc[p].intBlocked && Accepts(src, HardwareSlot(s.nrTasks)) {
    } else {
      AwaitKeepsCore(s, p, src);
      BlockDispatched(s, p, s.proc[p].(getFrom := src, receiving := true));
      var s1 := AwaitMessage(s, p, src);
      if s1.sigProcs > 0 && p == MmSlot(s.nrTasks) && src == ANY {
        InformKeepsCore(s1);
      }
    }
  }

  /** The receive half of a user's call blocks the head of the user queue. */
  lemma UserCallDispatched(s: State, srcDest: int, addressOk: bool)
    requires Inv(s) && Sized(s) && s.procPtr < |s.proc| && MaySysCall(s, Both, srcDest)
    requires s.proc[s.procPtr].priority.User?
    ensures Dispatched(SysCall(s, Both, srcDest, addressOk).0)
  {
    var p := s.procPtr;
    RunningIsReal(s);
    assert SlotOk(s.nrTasks, p, s.proc[p]);
    if SysCall(s, Both, srcDest, addressOk).1 == OK {
      BothAwaits(s, srcDest, addressOk);
      MiniSendKeepsCore(s, p, srcDest, addressOk);
      var s1 := MiniSend(s, p, srcDest, addressOk).0;
      assert SlotOk(s.nrTasks, srcDest, s.proc[srcDest]);
      if !WaitsFor(s.proc[srcDest], p) {
        SendDispatched(s, p, srcDest, addressOk);
      }
      BlockDispatched(s1, p, s1.proc[p].(getFrom := srcDest, receiving := true));
    }
  }

  lemma SysCallDispatched(s: State, call: Call, srcDest: int, addressOk: bool)
    requires Inv(s) && s.procPtr < |s.proc| && MaySysCall(s, call, srcDest)
    ensures Sized(s) && Dispatched(SysCall(s, call, srcDest, addressOk).0)
  {
    CoreIsSized(s);
    RunningIsReal(s);
    var p := s.procPtr;
    assert SlotOk(s.nrTasks, p, s.proc[p]);
    if !(0 <= srcDest < |s.proc| || srcDest == ANY) || (s.proc[p].priority.User? && !call.Both?) {
    } else if s.proc[p].priority.User? {
      UserCallDispatched(s, srcDest, addressOk);
    } else if call.Receive? {
      ReceiveDispatched(s, p, srcDest);
    } else {
      SendDispatched(s, p, srcDest, addressOk);
      var (s1, code) := MiniSend(s, p, srcDest, addressOk);
      if call.Both? && code == OK {
        BothAwaits(s, srcDest, addressOk);
        MiniSendKeepsCore(s, p, srcDest, addressOk);
        BlockDispatched(s1, p, s1.proc[p].(getFrom := srcDest, receiving := true));
      }
    }
  }

  lemma SysCallKeepsInv(s: State, call: Call, srcDest: int, addressOk: bool)
    requires Inv(s) && s.procPtr < |s.proc| && MaySysCall(s, call, srcDest)
    ensures Sized(s) && Inv(SysCall(s, call, srcDest, addressOk).0)
  {
    SysCallKeepsCore(s, call, srcDest, addressOk);
    SysCallDispatched(s, call, srcDest, addressOk);
  }
}
