/** The handlers of kernel/system.c that change the fields message passing and scheduling
    depend on, as state transformers. */
module SystemTask {
  import opened Queues
  import opened KernelState

  /** The record of a process that MM is yet to be told about. */
  function Signalled(r: Proc, sig: nat): Proc {
    r.(pending := r.pending + {sig}, pendCount := r.pendCount + 1, pendingFlag := true, sigPending := true)
  }

  /** cause_sig() up to the check whether MM is free: the first signal stops the process. */
  function FirstSignal(s: State, p: nat, sig: nat): State
    requires p < |s.proc| && 7 <= s.nrTasks && |s.rdy| == 3
  {
    Block(s, p, Signalled(s.proc[p], sig)).(sigProcs := s.sigProcs + 1)
  }

  /** cause_sig() */
  ghost function CauseSig(s: State, p: nat, sig: nat): State
    requires Sized(s) && p < |s.proc|
  {
    var r := s.proc[p];
    if sig in r.pending then s
    else
      if r.pendingFlag then
        s.(proc := s.proc[p := r.(pending := r.pending + {sig}, pendCount := r.pendCount + 1)])
      else
        var s1 := FirstSignal(s, p, sig);
        var mm := s1.proc[MmSlot(s.nrTasks)];
        if !mm.receiving || mm.getFrom != ANY then s1 else Inform(s1)
  }

  /** do_endsig() */
  function EndSig(s: State, p: nat): (State, Code)
    requires p < |s.proc| && |s.rdy| == 3
  {
    var r := s.proc[p];
    if r.priority.Vacant? then (s, EBadProc)
    else if r.pendCount == 0 then (s, OK)
    else
      var r1 := r.(pendCount := r.pendCount - 1, handed := if r.handed > 0 then r.handed - 1 else 0);
      if r1.pendCount == 0 then (Wake(s, p, r1.(sigPending := false)), OK)
      else (s.(proc := s.proc[p := r1]), OK)
  }

  /** The child's record: the parent's, unmapped, without signals or tracing. */
  function Child(parent: Proc, pid: nat): Proc {
    parent.(noMap := true, pendingFlag := false, sigPending := false, stopped := false,
            pending := {}, pendCount := 0, handed := 0, pid := pid, priGroup := pid % 2)
  }

  /** do_fork(); copying the slot copies the (empty) caller queue of the parent as well. */
  function Fork(s: State, parent: nat, child: nat, pid: nat): State
    requires parent < |s.proc| && child < |s.proc| == |s.callerq|
  {
    s.(proc := s.proc[child := Child(s.proc[parent], pid)],
       callerq := s.callerq[child := s.callerq[parent]])
  }

  /** do_newmap() */
  function NewMap(s: State, k: int): (State, Code)
    requires |s.rdy| == 3
  {
    if !(0 <= k < |s.proc|) then (s, EBadProc)
    else if s.proc[k].Runnable() then (s, OK)
    else (Wake(s, k, s.proc[k].(noMap := false)), OK)
  }

  /** do_exec() */
  ghost function Exec(s: State, p: nat, traced: bool, sigtrap: nat): State
    requires Sized(s) && p < |s.proc|
  {
    var s1 := if traced then CauseSig(s, p, sigtrap) else s;
    CauseSigKeepsSized(s, p, sigtrap);
    Wake(s1, p, s1.proc[p].(receiving := false))
  }

  lemma CauseSigKeepsSized(s: State, p: nat, sig: nat)
    requires Sized(s) && p < |s.proc|
    ensures Sized(CauseSig(s, p, sig)) && |CauseSig(s, p, sig).proc| == |s.proc|
  {
  }

  /** The record of a slot whose process has gone. */
  function Gone(r: Proc): Proc {
    r.(priority := Vacant, noMap := false, sending := false, receiving := false, pendingFlag := false,
       sigPending := false, stopped := false, pending := {}, pendCount := 0, handed := 0)
  }

  /** do_xit(): off the ready queue, out of the caller queue it waits in, and the slot is free. */
  function Exit(s: State, p: nat): State
    requires p < |s.proc| == |s.callerq| && 7 <= s.nrTasks && |s.rdy| == 3
    requires s.proc[p].sending ==> 0 <= s.proc[p].sendTo < |s.proc|
  {
    var r := s.proc[p];
    var s1 := if r.Runnable() then Unready(s, p) else s;
    var d := r.sendTo;
    var s2 := if r.sending then s1.(callerq := s.callerq[d := Remove(s.callerq[d], p)]) else s1;
    s2.(proc := s.proc[p := Gone(r)], sigProcs := s.sigProcs - if r.pendingFlag then 1 else 0)
  }

  datatype TraceRequest = T_STOP | T_RESUME | T_STEP

  /** do_trace(), for the requests that touch p_flags. */
  function Trace(s: State, p: nat, request: TraceRequest): (State, Code)
    requires p < |s.proc| && 7 <= s.nrTasks && |s.rdy| == 3
  {
    var r := s.proc[p];
    if r.priority.Vacant? then (s, EIo)
    else if request.T_STOP? then (Block(s, p, r.(stopped := true)), OK)
    else (Wake(s, p, r.(stopped := false)), OK)
  }

  /** The first of the slots 0..limit whose p_pid is pid; limit if there is none. */
  function FirstPid(proc: seq<Proc>, limit: nat, pid: int): (i: nat)
    requires limit <= |proc|
    ensures i <= limit
    ensures i < limit ==> proc[i].pid == pid
    ensures forall j :: 0 <= j < i ==> proc[j].pid != pid
  {
    FirstPidFrom(proc, limit, pid, 0)
  }

  function FirstPidFrom(proc: seq<Proc>, limit: nat, pid: int, from: nat): (i: nat)
    requires from <= limit <= |proc|
    ensures from <= i <= limit
    ensures i < limit ==> proc[i].pid == pid
    ensures forall j :: from <= j < i ==> proc[j].pid != pid
    decreases limit - from
  {
    if from == limit || proc[from].pid == pid then from else FirstPidFrom(proc, limit, pid, from + 1)
  }

  /** The number of table slots the two loops over proc[0..NR_PROCS) look at. */
  function NrProcs(s: State): int {
    |s.proc| - s.nrTasks
  }

  /** do_changeprigroup(): the new group, or -1 when no slot below NR_PROCS has that pid. */
  function ChangePriGroup(s: State, pid: int): (State, int)
    requires s.nrTasks <= |s.proc|
  {
    var i := FirstPid(s.proc, NrProcs(s), pid);
    if i == NrProcs(s) then (s, -1)
    else if s.proc[i].priGroup == 0 then (s.(proc := s.proc[i := s.proc[i].(priGroup := 1)]), 1)
    else (s.(proc := s.proc[i := s.proc[i].(priGroup := 0)]), 0)
  }

  /** do_setscheduler(): group A may set a divider in 1..99. */
  function SetScheduler(s: State, arg: int, pid: int): (State, int)
    requires s.nrTasks <= |s.proc|
  {
    var i := FirstPid(s.proc, NrProcs(s), pid);
    if i == NrProcs(s) then (s, -1)
    else if s.proc[i].priGroup != 0 then (s, -2)
    else if arg >= 100 || arg <= 0 then (s, -3)
    else (s.(divider := arg), 0)
  }
}
