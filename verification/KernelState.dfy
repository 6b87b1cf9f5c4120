/** The process table and the queues hung on it, as values, with the message passing and
    dispatching functions of kernel/proc.c as state transformers.

    Process number n lives in slot n + NR_TASKS of the table; everything here names a process
    by its slot.  The chains threaded through the table (p_callerq / p_sendlink,
    rdy_head / p_nextready, held_head / p_nextheld) appear as sequences of slots; the class in
    KernelTable keeps the real links and is proved to compute these functions. */
module KernelState {
  import opened Queues

  datatype Priority = Vacant | Task | Server | User | IdleClass

  /** One slot: the fields of struct proc that message passing and scheduling touch.  The six
      bits of p_flags are six fields.  `handed` is bookkeeping of what MM still owes: the
      signals it was told of and has not yet ended. */
  datatype Proc = Proc(
    priority: Priority,
    noMap: bool, sending: bool, receiving: bool, pendingFlag: bool, sigPending: bool, stopped: bool,
    sendTo: int, getFrom: int,
    intBlocked: bool, intHeld: bool,
    pending: set<nat>, pendCount: nat, handed: nat,
    priGroup: nat, pid: int)
  {
    /** p_flags == 0 */
    predicate Runnable() {
      !noMap && !sending && !receiving && !pendingFlag && !sigPending && !stopped
    }

    /** (p_flags & (RECEIVING | SENDING)) == RECEIVING */
    predicate Waiting() {
      receiving && !sending
    }
  }

  /** A message put into dest's buffer; the bytes are not modelled. */
  datatype Delivery = Delivery(source: nat, dest: nat)

  /** The static counters of sched(). */
  datatype History = History(a: nat, b: nat, sum: nat)

  datatype State = State(
    nrTasks: nat,
    proc: seq<Proc>,
    callerq: seq<seq<nat>>,
    rdy: seq<seq<nat>>,
    procPtr: nat,
    held: seq<nat>,
    sigProcs: int,
    divider: int,
    history: History,
    log: seq<Delivery>)

  /** The "receive from anybody" argument; it is no slot. */
  const ANY: int := -1

  const TASK_Q: nat := 0
  const SERVER_Q: nat := 1
  const USER_Q: nat := 2

  function IdleSlot(nrTasks: nat): int { nrTasks - 6 }
  function HardwareSlot(nrTasks: nat): int { nrTasks - 1 }
  function MmSlot(nrTasks: nat): nat { nrTasks }
  function FsSlot(nrTasks: nat): nat { nrTasks + 1 }
  function InitSlot(nrTasks: nat): nat { nrTasks + 2 }

  predicate IsSys(nrTasks: nat, p: int) {
    p == MmSlot(nrTasks) || p == FsSlot(nrTasks)
  }

  /** isrxhardware and the source test of mini_send and mini_rec: does a receive from src
      accept a message from p? */
  predicate Accepts(src: int, p: int) {
    src == ANY || src == p
  }

  function QClass(r: Proc): nat {
    if r.priority.Task? then TASK_Q else if r.priority.Server? then SERVER_Q else USER_Q
  }

  /** What every function below needs in order to index the table. */
  ghost predicate Sized(s: State) {
    && 7 <= s.nrTasks
    && s.nrTasks + 3 <= |s.proc| == |s.callerq|
    && |s.rdy| == 3
    && (forall d, x: nat {:trigger x in s.callerq[d]} :: 0 <= d < |s.callerq| && x in s.callerq[d] ==> x < |s.proc|)
    && (forall x: nat :: x in s.held ==> x < |s.proc|)
  }

  // ------------------------------------------------------------- ready queues

  function Top(s: State): nat
    requires 7 <= s.nrTasks && |s.rdy| == 3
  {
    if s.rdy[TASK_Q] != [] then s.rdy[TASK_Q][0]
    else if s.rdy[SERVER_Q] != [] then s.rdy[SERVER_Q][0]
    else if s.rdy[USER_Q] != [] then s.rdy[USER_Q][0]
    else IdleSlot(s.nrTasks)
  }

  function PickProc(s: State): State
    requires 7 <= s.nrTasks && |s.rdy| == 3
  {
    s.(procPtr := Top(s))
  }

  /** Tasks and servers join the tail of their queue, a user the front of its own; a task that
      finds its queue empty runs next. */
  function Ready(s: State, p: nat): State
    requires p < |s.proc| && |s.rdy| == 3
  {
    var c := QClass(s.proc[p]);
    if c == TASK_Q then
      s.(rdy := s.rdy[c := s.rdy[c] + [p]], procPtr := if s.rdy[c] == [] then p else s.procPtr)
    else if c == SERVER_Q then
      s.(rdy := s.rdy[c := s.rdy[c] + [p]])
    else
      s.(rdy := s.rdy[c := [p] + s.rdy[c]])
  }

  /** Takes p out of its queue; when it was the head, somebody else is picked (a task only when
      it was the one running). */
  function Unready(s: State, p: nat): State
    requires p < |s.proc| && 7 <= s.nrTasks && |s.rdy| == 3
  {
    var c := QClass(s.proc[p]);
    var q := s.rdy[c];
    var s1 := s.(rdy := s.rdy[c := Remove(q, p)]);
    if p !in q then s
    else if q[0] == p && (c != TASK_Q || p == s.procPtr) then PickProc(s1)
    else s1
  }

  /** Replace p's record by r and, if that leaves it without flags, ready it. */
  function Wake(s: State, p: nat, r: Proc): (s': State)
    requires p < |s.proc| && |s.rdy| == 3
    ensures |s'.rdy| == 3 && s'.(rdy := s.rdy, procPtr := s.procPtr) == s.(proc := s.proc[p := r])
  {
    var s1 := s.(proc := s.proc[p := r]);
    if r.Runnable() then Ready(s1, p) else s1
  }

  /** Unready p if it is runnable, then replace its record by r. */
  function Block(s: State, p: nat, r: Proc): (s': State)
    requires p < |s.proc| && 7 <= s.nrTasks && |s.rdy| == 3
    ensures |s'.rdy| == 3 && s'.(rdy := s.rdy, procPtr := s.procPtr) == s.(proc := s.proc[p := r])
  {
    var s1 := if s.proc[p].Runnable() then Unready(s, p) else s;
    s1.(proc := s.proc[p := r])
  }

  // --------------------------------------------------------------- messages

  datatype Code = OK | EBadSrc | EBadDest | ENoPerm | EFault | ELocked | EBadProc | EIo

  /** The slot reached from p after k hops along p_sendto, NIL once the path has ended. */
  ghost function Hop(proc: seq<Proc>, p: int, k: nat): int
    decreases k
  {
    if k == 0 then p
    else if 0 <= p < |proc| && proc[p].sending then Hop(proc, proc[p].sendTo, k - 1)
    else NIL
  }

  /** dest is, directly or through others, waiting to send to caller. */
  ghost predicate SendsTowards(proc: seq<Proc>, dest: nat, caller: nat) {
    exists k: nat :: k >= 1 && Hop(proc, dest, k) == caller
  }

  predicate WaitsFor(r: Proc, p: int) {
    r.Waiting() && Accepts(r.getFrom, p)
  }

  /** The message of `source` reaches d, which stops receiving. */
  function Deliver(s: State, source: nat, d: nat): State
    requires d < |s.proc| && |s.rdy| == 3
  {
    Wake(s, d, s.proc[d].(receiving := false)).(log := s.log + [Delivery(source, d)])
  }

  /** p blocks at the end of d's caller queue. */
  function Enqueue(s: State, p: nat, d: nat): State
    requires p < |s.proc| && d < |s.callerq| && 7 <= s.nrTasks && |s.rdy| == 3
  {
    Block(s, p, s.proc[p].(sending := true, sendTo := d)).(callerq := s.callerq[d := s.callerq[d] + [p]])
  }

  ghost function MiniSend(s: State, p: nat, dest: int, addressOk: bool): (State, Code)
    requires Sized(s) && p < |s.proc|
    requires s.proc[p].priority.User? || 0 <= dest < |s.proc|
  {
    if s.proc[p].priority.User? && !IsSys(s.nrTasks, dest) then (s, EBadDest)
    else if s.proc[dest].priority.Vacant? then (s, EBadDest)
    else if !addressOk then (s, EFault)
    else if SendsTowards(s.proc, dest, p) then (s, ELocked)
    else if WaitsFor(s.proc[dest], p) then (Deliver(s, p, dest), OK)
    else (Enqueue(s, p, dest), OK)
  }

  /** Index of the first sender in q that src accepts; |q| if there is none. */
  function FirstMatch(q: seq<nat>, src: int): nat {
    if q == [] || Accepts(src, q[0]) then 0 else 1 + FirstMatch(q[1..], src)
  }

  lemma {:induction false} FirstMatchIsFirst(q: seq<nat>, src: int)
    ensures FirstMatch(q, src) <= |q|
    ensures FirstMatch(q, src) < |q| ==> Accepts(src, q[FirstMatch(q, src)])
    ensures forall i :: 0 <= i < FirstMatch(q, src) ==> !Accepts(src, q[i])
  {
    if q != [] && !Accepts(src, q[0]) {
      FirstMatchIsFirst(q[1..], src);
      forall i | 0 <= i < FirstMatch(q, src) ensures !Accepts(src, q[i]) {
        if i > 0 {
          assert q[i] == q[1..][i - 1];
        }
      }
    }
  }

  /** p takes the message of the i-th sender in its caller queue. */
  function Dequeue(s: State, p: nat, i: nat): State
    requires Sized(s) && p < |s.proc| && i < |s.callerq[p]|
  {
    var q := s.callerq[p][i];
    assert q in s.callerq[p];
    var s1 := s.(callerq := s.callerq[p := Without(s.callerq[p], i)], log := s.log + [Delivery(q, p)]);
    Wake(s1, q, s.proc[q].(sending := false))
  }

  /** p takes the interrupt that was recorded while it was busy. */
  function TakeInterrupt(s: State, p: nat): State
    requires p < |s.proc| && 7 <= s.nrTasks
  {
    s.(proc := s.proc[p := s.proc[p].(intBlocked := false)],
       log := s.log + [Delivery(HardwareSlot(s.nrTasks), p)])
  }

  /** p blocks until a message from src comes. */
  function AwaitMessage(s: State, p: nat, src: int): State
    requires p < |s.proc| && 7 <= s.nrTasks && |s.rdy| == 3
  {
    Block(s, p, s.proc[p].(getFrom := src, receiving := true))
  }

  ghost function MiniRec(s: State, p: nat, src: int): State
    requires Sized(s) && p < |s.proc|
  {
    FirstMatchIsFirst(s.callerq[p], src);
    if !s.proc[p].sending && FirstMatch(s.callerq[p], src) < |s.callerq[p]| then
      Dequeue(s, p, FirstMatch(s.callerq[p], src))
    else if !s.proc[p].sending && s.proc[p].intBlocked && Accepts(src, HardwareSlot(s.nrTasks)) then
      TakeInterrupt(s, p)
    else
      var s1 := AwaitMessage(s, p, src);
      if s1.sigProcs > 0 && p == MmSlot(s.nrTasks) && src == ANY then Inform(s1) else s1
  }

  /** The first slot from `from` on whose PENDING bit is set; |proc| if there is none. */
  function FirstPending(proc: seq<Proc>, from: nat): (p: nat)
    requires from <= |proc|
    ensures from <= p <= |proc|
    ensures p < |proc| ==> proc[p].pendingFlag
    ensures forall q :: from <= q < p ==> !proc[q].pendingFlag
    decreases |proc| - from
  {
    if from == |proc| || proc[from].pendingFlag then from else FirstPending(proc, from + 1)
  }

  /** The signals of p go to MM. */
  function HandOver(s: State, p: nat): State
    requires p < |s.proc|
  {
    var r := s.proc[p];
    s.(proc := s.proc[p := r.(pending := {}, pendingFlag := false, handed := r.handed + |r.pending|)])
  }

  ghost function Inform(s: State): State
    requires Sized(s)
  {
    var p := FirstPending(s.proc, s.nrTasks);
    if p == |s.proc| then s
    else
      var (s1, code) := MiniSend(s.(sigProcs := s.sigProcs - 1), HardwareSlot(s.nrTasks), MmSlot(s.nrTasks), true);
      PickProc(HandOver(s1, p))
  }

  datatype Call = Send | Receive | Both

  /** A system call by the running process. */
  ghost function SysCall(s: State, call: Call, srcDest: int, addressOk: bool): (State, Code)
    requires Sized(s) && s.procPtr < |s.proc|
    requires s.proc[s.procPtr].priority.User? || call.Receive? || srcDest != ANY
  {
    var p := s.procPtr;
    if !(0 <= srcDest < |s.proc| || srcDest == ANY) then (s, EBadSrc)
    else if s.proc[p].priority.User? && !call.Both? then (s, ENoPerm)
    else if call.Receive? then (MiniRec(s, p, srcDest), OK)
    else
      var (s1, code) := MiniSend(s, p, srcDest, addressOk);
      if call.Send? || code != OK then (s1, code)
      else
        SendKeepsSized(s, p, srcDest, addressOk);
        (MiniRec(s1, p, srcDest), OK)
  }

  lemma SendKeepsSized(s: State, p: nat, dest: int, addressOk: bool)
    requires Sized(s) && p < |s.proc|
    requires s.proc[p].priority.User? || 0 <= dest < |s.proc|
    ensures Sized(MiniSend(s, p, dest, addressOk).0)
    ensures |MiniSend(s, p, dest, addressOk).0.proc| == |s.proc|
  {
  }

  // -------------------------------------------------------------- interrupts

  /** An interrupt for task t.  `busy` is the competing condition k_reenter != 0 || switching. */
  function Interrupt(s: State, t: nat, busy: bool): State
    requires t < |s.proc| && 7 <= s.nrTasks && |s.rdy| == 3
  {
    var r := s.proc[t];
    if busy then
      if r.intHeld then s
      else s.(proc := s.proc[t := r.(intHeld := true)], held := s.held + [t])
    else if !WaitsFor(r, HardwareSlot(s.nrTasks)) then
      s.(proc := s.proc[t := r.(intBlocked := true)])
    else
      // the inlined ready() looks at no other flag
      Ready(s.(proc := s.proc[t := r.(receiving := false, intBlocked := false)],
               log := s.log + [Delivery(HardwareSlot(s.nrTasks), t)]), t)
  }

  /** One round of unhold(): the head of the held queue is let go and interrupts again. */
  function Release(s: State): State
    requires s.held != [] && s.held[0] < |s.proc| && 7 <= s.nrTasks && |s.rdy| == 3
  {
    var t := s.held[0];
    Interrupt(s.(proc := s.proc[t := s.proc[t].(intHeld := false)], held := s.held[1..]), t, false)
  }

  lemma ReleaseKeepsSized(s: State)
    requires Sized(s) && s.held != []
    ensures s.held[0] in s.held && Sized(Release(s))
    ensures |Release(s).proc| == |s.proc| && Release(s).held == s.held[1..]
  {
    assert forall x: nat :: x in s.held[1..] ==> x in s.held;
  }

  /** n rounds of unhold(). */
  ghost function ReleaseN(s: State, n: nat): (s': State)
    requires Sized(s) && n <= |s.held|
    ensures Sized(s') && |s'.proc| == |s.proc| && s'.held == s.held[n..]
    decreases n
  {
    if n == 0 then s else
      var s1 := ReleaseN(s, n - 1);
      hide Sized, Release;
      ReleaseKeepsSized(s1);
      assert s1.held[1..] == s.held[n..];
      Release(s1)
  }

  /** unhold() when nothing new is held up meanwhile. */
  ghost function Unhold(s: State): State
    requires Sized(s)
  {
    ReleaseN(s, |s.held|)
  }
}
