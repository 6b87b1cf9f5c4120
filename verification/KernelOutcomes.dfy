/** What a process can count on when a kernel entry returns: who runs, who is blocked, whose
    message arrived. */
module KernelOutcomes {
  import opened Queues
  import opened KernelState
  import opened KernelInvariants
  import opened KernelMessages
  import opened SystemTask
  import opened KernelSteps
  import opened KernelRuns
  import opened KernelOrder

  // ---------------------------------------------------------------- dispatch

  /** No process that can run has a higher priority than the running one, and IDLE runs only
      when none can run. */
  lemma NobodyMoreUrgent(s: State, p: nat)
    requires Inv(s) && p < |s.proc| && CanRun(s.nrTasks, p, s.proc[p])
    ensures s.procPtr < |s.proc| && s.procPtr != IdleSlot(s.nrTasks)
    ensures QClass(s.proc[s.procPtr]) <= QClass(s.proc[p])
  {
    assert p in s.rdy[QClass(s.proc[p])];
    assert forall c :: 0 <= c < 3 && s.rdy[c] != [] ==> s.rdy[c][0] in s.rdy[c];
  }

  /** A process that becomes ready stands behind all ready tasks or servers, or before all ready
      users. */
  lemma WakePlaces(s: State, p: nat, r: Proc, q: nat)
    requires Shape(s.nrTasks, s.proc) && ReadyAgree(s.nrTasks, s.proc, s.rdy)
    requires p < |s.proc| && r.Runnable() && q in s.rdy[QClass(r)]
    ensures var queue := Wake(s, p, r).rdy[QClass(r)];
      if QClass(r) == USER_Q then Ahead(queue, p, q) else Ahead(queue, q, p)
  {
    var c := QClass(r);
    var queue := Wake(s, p, r).rdy[c];
    var i :| 0 <= i < |s.rdy[c]| && s.rdy[c][i] == q;
    if c == USER_Q {
      assert queue[0] == p && queue[i + 1] == q;
    } else {
      assert queue[i] == q && queue[|s.rdy[c]|] == p;
    }
  }

  /** From s to s', p joined the ready queue of its class if no flag is left on it: a task or server
      at the end, a user in front.  The queues changed in no other way. */
  ghost predicate Readied(s: State, s': State, p: nat) {
    && p < |s'.proc| && |s.rdy| == 3
    && var c := QClass(s'.proc[p]);
       if !s'.proc[p].Runnable() then s'.rdy == s.rdy
       else s'.rdy == s.rdy[c := if c == USER_Q then [p] + s.rdy[c] else s.rdy[c] + [p]]
  }

  /** From s to s', p left its ready queue if it was in it, and the others kept their order. */
  ghost predicate Unreadied(s: State, s': State, p: nat) {
    && |s.rdy| == 3 == |s'.rdy|
    && forall c :: 0 <= c < 3 ==>
         if p in s.rdy[c] then LeftOnly(s.rdy[c], s'.rdy[c], p) else s'.rdy[c] == s.rdy[c]
  }

  ghost predicate LeftOnly(q: seq<nat>, q': seq<nat>, p: nat) {
    exists i: nat :: i < |q| && q[i] == p && q' == Without(q, i)
  }

  lemma BlockUnreadies(s: State, p: nat, r: Proc)
    requires Shape(s.nrTasks, s.proc) && ReadyAgree(s.nrTasks, s.proc, s.rdy) && p < |s.proc|
    ensures Unreadied(s, Block(s, p, r), p)
  {
    var c := QClass(s.proc[p]);
    if p in s.rdy[c] {
      var i: nat :| i < |s.rdy[c]| && s.rdy[c][i] == p;
      RemoveAt(s.rdy[c], p, i);
      assert LeftOnly(s.rdy[c], Block(s, p, r).rdy[c], p);
    }
  }

  // ---------------------------------------------------------------- mini_send

  /** The table in which p is queued on dest. */
  function WithEdge(proc: seq<Proc>, p: nat, dest: int): seq<Proc>
    requires p < |proc|
  {
    proc[p := proc[p].(sending := true, sendTo := dest)]
  }

  /** dest is there, and p may send to it. */
  predicate MayReach(s: State, p: nat, dest: int)
    requires p < |s.proc|
  {
    && (s.proc[p].priority.User? ==> IsSys(s.nrTasks, dest))
    && 0 <= dest < |s.proc| && !s.proc[dest].priority.Vacant?
  }

  /** What mini_send answers, exactly: E_BAD_DEST if the destination is not there or not allowed,
      else EFAULT if the message is not in the caller's memory, else ELOCKED if queueing the caller
      would close a cycle of senders, else OK. */
  lemma SendAnswers(s: State, p: nat, dest: int, addressOk: bool)
    requires Core(s) && Sized(s) && MaySend(s, p, dest)
    ensures var code := MiniSend(s, p, dest, addressOk).1;
      && (code == EBadDest <==> !MayReach(s, p, dest))
      && (code == EFault <==> MayReach(s, p, dest) && !addressOk)
      && (code == ELocked <==> MayReach(s, p, dest) && addressOk && !Acyclic(WithEdge(s.proc, p, dest)))
      && (code == OK <==> MayReach(s, p, dest) && addressOk && Acyclic(WithEdge(s.proc, p, dest)))
  {
    if MayReach(s, p, dest) {
      LockedIffCycle(s, p, dest);
    }
  }

  /** A send that fails changes nothing.  One that succeeds has handed its message to a destination
      that waited for it, or else has blocked its caller behind everybody queued on dest. */
  lemma SendOutcome(s: State, p: nat, dest: int, addressOk: bool)
    requires Core(s) && Sized(s) && MaySend(s, p, dest)
    ensures var (s', code) := MiniSend(s, p, dest, addressOk);
      if code != OK then s' == s
      else
        && 0 <= dest < |s.proc| && dest != p
        && if WaitsFor(s.proc[dest], p) then Handed(s, p, dest, s') else QueuedLast(s, p, dest, s')
  {
    assert SlotOk(s.nrTasks, p, s.proc[p]);
    if MiniSend(s, p, dest, addressOk).1 == OK && !WaitsFor(s.proc[dest], p) {
      BlockUnreadies(s, p, s.proc[p].(sending := true, sendTo := dest));
      NotQueuedTwice(s, p, dest);
    }
  }

  lemma NotQueuedTwice(s: State, p: nat, dest: nat)
    requires Core(s) && p < |s.proc| && dest < |s.callerq| && !s.proc[p].sending
    ensures p !in s.callerq[dest]
  {
  }

  /** Exactly one message of p is in dest's buffer, and dest waits no more; it is ready again, in
      its place, if nothing else holds it.  Nothing else has changed. */
  ghost predicate Handed(s: State, p: nat, dest: nat, s': State)
    requires dest < |s.proc|
  {
    && s' == s.(proc := s.proc[dest := s.proc[dest].(receiving := false)], log := s.log + [Delivery(p, dest)],
                rdy := s'.rdy, procPtr := s'.procPtr)
    && Readied(s, s', dest)
  }

  /** p is blocked sending to dest, behind all others queued there, and ready no more.  Nothing else
      has changed. */
  ghost predicate QueuedLast(s: State, p: nat, dest: nat, s': State)
    requires p < |s.proc|
  {
    && dest < |s.callerq| && p !in s.callerq[dest]
    && s' == s.(proc := WithEdge(s.proc, p, dest), callerq := s.callerq[dest := s.callerq[dest] + [p]],
                rdy := s'.rdy, procPtr := s'.procPtr)
    && Unreadied(s, s', p)
  }

  // ----------------------------------------------------------------- mini_rec

  /** p has taken the message of the first in its caller queue that src accepts; that process sends
      no more, and is ready again if nothing else holds it. */
  ghost predicate Took(s: State, p: nat, src: int, s': State)
    requires p < |s.proc| == |s.callerq|
  {
    exists i: nat :: TookAt(s, p, src, i, s')
  }

  ghost predicate TookAt(s: State, p: nat, src: int, i: nat, s': State)
    requires p < |s.proc| == |s.callerq|
  {
    && i < |s.callerq[p]| && s.callerq[p][i] < |s.proc|
    && var q := s.callerq[p][i];
       && Accepts(src, q) && (forall k :: 0 <= k < i ==> !Accepts(src, s.callerq[p][k]))
       && s' == s.(proc := s.proc[q := s.proc[q].(sending := false)], callerq := s.callerq[p := Without(s.callerq[p], i)],
                   log := s.log + [Delivery(q, p)], rdy := s'.rdy, procPtr := s'.procPtr)
       && Readied(s, s', q)
  }

  /** p has taken the interrupt recorded for it. */
  ghost predicate TookInterrupt(s: State, p: nat, s': State)
    requires p < |s.proc| && 1 <= s.nrTasks
  {
    s' == s.(proc := s.proc[p := s.proc[p].(intBlocked := false)],
             log := s.log + [Delivery(HardwareSlot(s.nrTasks), p)])
  }

  /** p waits for a message from src, and is ready no more. */
  ghost predicate WaitsNow(s: State, p: nat, src: int, s': State)
    requires p < |s.proc|
  {
    && s' == s.(proc := s.proc[p := s.proc[p].(receiving := true, getFrom := src)], rdy := s'.rdy, procPtr := s'.procPtr)
    && Unreadied(s, s', p)
  }

  /** MM, which waited for anything, has been told of all pending signals of the first process that
      has some. */
  ghost predicate Informed(s: State, s': State)
    requires 1 <= s.nrTasks < |s.proc|
  {
    exists q: nat :: InformedOf(s, q, s')
  }

  ghost predicate InformedOf(s: State, q: nat, s': State)
    requires 1 <= s.nrTasks < |s.proc|
  {
    && q < |s.proc| && s.proc[q].pendingFlag && (forall k :: 0 <= k < q ==> !s.proc[k].pendingFlag)
    && var mm, r := MmSlot(s.nrTasks), s.proc[q];
       && s' == s.(proc := s.proc[mm := s.proc[mm].(receiving := false)]
                              [q := r.(pending := {}, pendingFlag := false, handed := r.handed + |r.pending|)],
                   sigProcs := s.sigProcs - 1, log := s.log + [Delivery(HardwareSlot(s.nrTasks), mm)],
                   rdy := s'.rdy, procPtr := s'.procPtr)
       && Readied(s, s', mm)
  }

  lemma InformOutcome(s: State)
    requires Core(s) && s.sigProcs > 0
    requires s.proc[MmSlot(s.nrTasks)].receiving && s.proc[MmSlot(s.nrTasks)].getFrom == ANY
    ensures Sized(s) && Informed(s, Inform(s))
  {
    InformSucceeds(s);
    MmTakesHardware(s);
    var q := FirstPending(s.proc, s.nrTasks);
    OnlyUsersPend(s, q);
    hide CallersAgree, Acyclic, NoMissed, HeldAgree, ReadyAgree;
    assert InformedOf(s, q, Inform(s));
  }

  lemma OnlyUsersPend(s: State, q: nat)
    requires Core(s) && q == FirstPending(s.proc, s.nrTasks)
    ensures forall k :: 0 <= k < q ==> !s.proc[k].pendingFlag
    ensures q < |s.proc| ==> q != MmSlot(s.nrTasks)
  {
    forall k | 0 <= k < |s.proc| && s.proc[k].pendingFlag
      ensures s.nrTasks < k
    {
      assert SlotOk(s.nrTasks, k, s.proc[k]) && SignalsOk(s.proc[k]);
    }
  }

  /** There is something for p to receive from src. */
  ghost predicate AtHand(s: State, p: nat, src: int)
    requires p < |s.proc| == |s.callerq|
  {
    SenderAtHand(s, p, src) || (s.proc[p].intBlocked && Accepts(src, HardwareSlot(s.nrTasks)))
  }

  ghost predicate SenderAtHand(s: State, p: nat, src: int)
    requires p < |s.callerq|
  {
    exists q: nat :: q in s.callerq[p] && Accepts(src, q)
  }

  /** What has become of a receive: a queued message first, then a recorded interrupt, and if there
      is neither p waits; MM does not get to wait for new work while there are signals to report. */
  ghost predicate Received(s: State, p: nat, src: int, s': State)
    requires p < |s.proc| == |s.callerq| && 1 <= s.nrTasks < |s.proc|
  {
    if SenderAtHand(s, p, src) then Took(s, p, src, s')
    else if AtHand(s, p, src) then TookInterrupt(s, p, s')
    else if s.sigProcs > 0 && p == MmSlot(s.nrTasks) && src == ANY then
      exists s1: State :: WaitsNow(s, p, src, s1) && 1 <= s1.nrTasks < |s1.proc| && Informed(s1, s')
    else WaitsNow(s, p, src, s')
  }

  lemma ReceiveOutcome(s: State, p: nat, src: int)
    requires Core(s) && Sized(s) && MayReceive(s, p, src) && !s.proc[p].sending
    ensures Received(s, p, src, MiniRec(s, p, src))
  {
    FirstMatchIsFirst(s.callerq[p], src);
    var i := FirstMatch(s.callerq[p], src);
    if i < |s.callerq[p]| {
      assert s.callerq[p][i] in s.callerq[p];
      hide Core;
      assert TookAt(s, p, src, i, MiniRec(s, p, src));
    } else if s.proc[p].intBlocked && Accepts(src, HardwareSlot(s.nrTasks)) {
    } else {
      AwaitOutcome(s, p, src);
    }
  }

  lemma AwaitOutcome(s: State, p: nat, src: int)
    requires Core(s) && Sized(s) && MayReceive(s, p, src) && !s.proc[p].sending
    requires !SenderAtHand(s, p, src) && !AtHand(s, p, src) && FirstMatch(s.callerq[p], src) == |s.callerq[p]|
    ensures Received(s, p, src, MiniRec(s, p, src))
  {
    AwaitKeepsCore(s, p, src);
    BlockUnreadies(s, p, s.proc[p].(getFrom := src, receiving := true));
    var s1 := AwaitMessage(s, p, src);
    assert WaitsNow(s, p, src, s1);
    if s.sigProcs > 0 && p == MmSlot(s.nrTasks) && src == ANY {
      InformOutcome(s1);
    }
  }

  // ----------------------------------------------------------------- sys_call

  predicate IsSource(s: State, srcDest: int) {
    0 <= srcDest < |s.proc| || srcDest == ANY
  }

  /** The send half of a call is tried. */
  predicate Tries(s: State, call: Call, srcDest: int)
    requires s.procPtr < |s.proc|
  {
    IsSource(s, srcDest) && !call.Receive? && (s.proc[s.procPtr].priority.User? ==> call.Both?)
  }

  /** What sys_call answers, exactly. */
  lemma SysCallAnswers(s: State, call: Call, srcDest: int, addressOk: bool)
    requires Inv(s) && s.procPtr < |s.proc| && MaySysCall(s, call, srcDest)
    ensures Sized(s)
    ensures var p, code := s.procPtr, SysCall(s, call, srcDest, addressOk).1;
      && (code == EBadSrc <==> !IsSource(s, srcDest))
      && (code == ENoPerm <==> IsSource(s, srcDest) && s.proc[p].priority.User? && !call.Both?)
      && (code == EBadDest <==> Tries(s, call, srcDest) && !MayReach(s, p, srcDest))
      && (code == EFault <==> Tries(s, call, srcDest) && MayReach(s, p, srcDest) && !addressOk)
      && (code == ELocked <==> Tries(s, call, srcDest) && MayReach(s, p, srcDest) && addressOk
                               && !Acyclic(WithEdge(s.proc, p, srcDest)))
      && (code == OK <==>
            || (Tries(s, call, srcDest) && MayReach(s, p, srcDest) && addressOk && Acyclic(WithEdge(s.proc, p, srcDest)))
            || (IsSource(s, srcDest) && call.Receive? && !s.proc[p].priority.User?))
  {
    InvIsSized(s);
    RunningIsReal(s);
    assert SlotOk(s.nrTasks, s.procPtr, s.proc[s.procPtr]);
    hide Inv, MayReach, MiniSend, MiniRec, Acyclic;
    if Tries(s, call, srcDest) {
      CoreOf(s);
      SendAnswers(s, s.procPtr, srcDest, addressOk);
    }
  }

  lemma CoreOf(s: State)
    requires Inv(s)
    ensures Core(s) && MmInformed(s)
  {
  }

  /** The caller has sent its message and waits for the answer of dest. */
  ghost predicate SentAndWaits(s: State, p: nat, dest: nat, s': State)
    requires p < |s.proc| && dest < |s.proc|
  {
    exists s1: State ::
      && (if WaitsFor(s.proc[dest], p) then Handed(s, p, dest, s1) else QueuedLast(s, p, dest, s1))
      && |s1.proc| == |s.proc| && WaitsNow(s1, p, dest, s')
  }

  /** What a system call has done: nothing when it fails; a receive, a send, or a send and then the
      wait for the answer when it does not. */
  lemma SysCallOutcome(s: State, call: Call, srcDest: int, addressOk: bool)
    requires Inv(s) && Enabled(s, ESysCall(call, srcDest, addressOk))
    ensures var (s', code) := SysCall(s, call, srcDest, addressOk);
      var p := s.procPtr;
      && s' == Step(s, ESysCall(call, srcDest, addressOk))
      && (code != OK ==> s' == s)
      && (code == OK && call.Receive? ==> Received(s, p, srcDest, s'))
      && (code == OK && !call.Receive? ==> 0 <= srcDest < |s.proc| && srcDest != p)
      && (code == OK && call.Send? ==>
            if WaitsFor(s.proc[srcDest], p) then Handed(s, p, srcDest, s') else QueuedLast(s, p, srcDest, s'))
      && (code == OK && call.Both? ==> SentAndWaits(s, p, srcDest, s'))
  {
    CoreOf(s);
    RunningIsReal(s);
    var p := s.procPtr;
    assert SlotOk(s.nrTasks, p, s.proc[p]);
    var (s', code) := SysCall(s, call, srcDest, addressOk);
    if Tries(s, call, srcDest) {
      SendOutcome(s, p, srcDest, addressOk);
      if call.Both? && code == OK {
        BothOutcome(s, srcDest, addressOk);
      }
    } else if call.Receive? && IsSource(s, srcDest) && !s.proc[p].priority.User? {
      ReceiveOutcome(s, p, srcDest);
    }
  }

  lemma BothOutcome(s: State, srcDest: int, addressOk: bool)
    requires Inv(s) && Sized(s) && s.procPtr < |s.proc| && MaySysCall(s, Both, srcDest)
    requires SysCall(s, Both, srcDest, addressOk).1 == OK
    ensures 0 <= srcDest < |s.proc| && SentAndWaits(s, s.procPtr, srcDest, SysCall(s, Both, srcDest, addressOk).0)
  {
    var p := s.procPtr;
    RunningIsReal(s);
    assert SlotOk(s.nrTasks, p, s.proc[p]);
    BothAwaits(s, srcDest, addressOk);
    SendOutcome(s, p, srcDest, addressOk);
    MiniSendKeepsCore(s, p, srcDest, addressOk);
    var s1 := MiniSend(s, p, srcDest, addressOk).0;
    BlockUnreadies(s1, p, s1.proc[p].(getFrom := srcDest, receiving := true));
    hide Inv, MiniSend, SysCall, Handed, QueuedLast, Unreadied;
    assert WaitsNow(s1, p, srcDest, AwaitMessage(s1, p, srcDest));
  }
}
