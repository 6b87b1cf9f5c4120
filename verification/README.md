# Operating-systems laboratories, modelled and verified

Four programs of the repository are modelled, each with its properties proved for every run:

- **The MINIX kernel of soi2**: rendezvous messages with deadlock check, three ready queues, held
  and blocked interrupts, signals, and the proportional scheduler with two groups. `Queues`,
  `KernelState`, `SystemTask` and `Scheduler` say what each kernel entry does to the table as a
  value; `KernelInvariants`, `KernelMessages`, `KernelSteps`, `KernelRuns`, `KernelOrder`,
  `KernelOutcomes`, `KernelHandlers`, `KernelShares` and `KernelDeadlock` prove what every entry and
  every run keeps and does; `KernelTable` is the table itself, with its links updated in place, and
  each of its methods is proved to do what the value model says.
- **The monitor and the message buffer of soi4**: `PriorityBuffer` says what pop, push and push_pri
  do to the list in every state, `Monitor` is a machine of any number of threads around it, one
  semaphore operation per step, and `MessageBuffer` is the linked list on the heap, proved to do the
  same.
- **The chat of soi3**: `ChatRings` and `ChatTurns` (with `Totals`), a machine of any number of
  producers and consumers over two rings and five semaphores, start-up included.
- **The contiguous-extent file system of soi6**: `VsfsImage` is the image as a value, `VsfsMap` and
  `VsfsRuns` prove how far it is a map from names to contents, `VsfsLoss` and `VsfsLeaks` where it
  is not, and `VsfsDisk` is the image updated in place.

Processes are named by their slot in the table: process number n has slot n + NR_TASKS. NR_TASKS,
NR_PROCS, CAPACITY and MAX are arbitrary. The environment's part is a contract for each kernel entry
(`MaySysCall`, `MayFork`, `MayExit`, `MayExec`, `MayEndSig`, `MayTrace`, `TaskRuns`, gathered in
`KernelRuns.Enabled`): a task or server sends to another process that is not HARDWARE, interrupts
are for tasks, signals for users, MM ends only signals it was told of, do_exec finds its process
receiving, T_RESUME and T_STEP find theirs blocked, a forking process is not sending, and nobody is
queued on one that forks or exits.

## Where the code departs from its documentation or its intent

- The deadlock check of mini_send (proc.c:199-209) does not see a send to oneself
  (`KernelMessages.SendKeepsAcyclicIff`), nor a circle through a process that receives from one
  source only (`KernelDeadlock.CircularWaitIsReached`).
- The handlers for the groups (system.c:1267, 1293) look at the first NR_PROCS slots of a table that
  has NR_TASKS more, so a process in one of the last NR_TASKS slots cannot change its group
  (`KernelSteps.ChangePriGroupIff`), nor the divider unless an earlier slot of the same pid is in
  group A (`KernelSteps.SetSchedulerIff`). The report (soi2/sprawko.md:12) allows 0 to 100 and
  answers -1 to a process of group B; the code allows 1 to 99 and answers -2 and -3.
- sched() never resets sum (proc.c:459), so after 200 rotations the divider has no effect
  (`Scheduler.RoundRobinLater`).
- push_pri leaves tail behind when the last node is a priority message (messagebuffer.cpp:78-82). A
  later push through it cuts off what comes after (`PriorityBuffer.PushAfterPriorities`), and
  buffer_occupancy goes on counting that; once the message tail points to has been taken, a push
  writes to freed memory. `Monitor.RunsLoseIff` and `Monitor.RunsAreSafe` say exactly when runs lose
  messages and when they come to that.
- rm computes where the extent starts (rm.c:51) and clears from the inode's index instead (rm.c:64);
  `VsfsMap.RmKeepsInvIff` and `VsfsMap.RmReleasesExtentIff` say exactly when that is right,
  `VsfsLoss.RmCanLoseAnotherFile` shows what happens when it is not, and `VsfsLoss.DamageIff` when
  that can be seen. `VsfsRuns.IntendedRmIsSafe` is about the rm that was meant.
- cp looks for free blocks past the end of the bitmap (cp.c:75-76); `VsfsMap.PlaceInRangeIff` says
  exactly when that does no harm.
- touch leaves startingBlock as an earlier file left it (touch.c:52-59), which does not matter to
  cat and load, since the size is 0.

## Model

| member | source | states |
|---|---|---|
| KernelRuns.RunsKeepInv | soi2/minix_diff_2018_11_20_01_49_03/minix_usr/src/kernel/proc.c:52-615 | In every run of complete kernel entries from boot, every state satisfies all invariants: the ready queues, caller queues and held queue hold each process exactly once exactly when its flags say so; the graph of blocked senders is acyclic; no rendezvous is missed; the signal counters are exact; MM is informed; the head of the highest non-empty ready queue runs, IDLE if there is none |
| KernelRuns.StepKeepsInv | soi2/minix_diff_2018_11_20_01_49_03/minix_usr/src/kernel/proc.c:52-615 | Each single kernel entry - system call, interrupt, unhold or one round of it, sched, and every modelled handler - keeps all invariants |
| KernelRuns.BootKeepsInv | soi2/minix_diff_2018_11_20_01_49_03/minix_usr/src/kernel/main.c:68-136 | The state in which the boot loop starts the first process satisfies all invariants, for any number of tasks and processes |
| KernelRuns.BootTable | soi2/minix_diff_2018_11_20_01_49_03/minix_usr/src/kernel/main.c:68-136 | The table at boot, slot by slot, and the ready queues with tasks and servers in the order of their slots |
| KernelRuns.RunsLoseNone | soi2/minix_diff_2018_11_20_01_49_03/minix_usr/src/kernel/proc.c:159-298 | Between any two states of a run, a process that was blocked sending is still queued on the same destination or its message was put into that destination's buffer, unless it exited; an outstanding interrupt is still outstanding or was delivered |
| KernelRuns.StepLosesNone | soi2/minix_diff_2018_11_20_01_49_03/minix_usr/src/kernel/proc.c:211-290 | The same for one kernel entry of any kind |
| KernelRuns.InterruptRaised | soi2/minix_diff_2018_11_20_01_49_03/minix_usr/src/kernel/proc.c:76-116 | After interrupt() the task is held, blocked, or has been handed HARDWARE's message |
| KernelRuns.InterruptsAreNeverLost | soi2/minix_diff_2018_11_20_01_49_03/minix_usr/src/kernel/proc.c:76-106 | In every run, from the moment an interrupt is raised its task is held or has p_int_blocked set until HARDWARE's message is delivered to it |
| KernelOrder.StepIsOrderly | soi2/minix_diff_2018_11_20_01_49_03/minix_usr/src/kernel/proc.c:211-276 | Each kernel entry lets at most one process join a caller queue, at its end, or one leave it, and every delivered message came from HARDWARE, from a process queued on the receiver, or from the caller to a process waiting for it |
| KernelOrder.ReceiveTakesEarliest | soi2/minix_diff_2018_11_20_01_49_03/minix_usr/src/kernel/proc.c:258-275 | mini_rec takes the message of the first queued sender that the source argument accepts, and takes exactly that one off the queue |
| KernelOrder.ArrivalOrderIsKept | soi2/minix_diff_2018_11_20_01_49_03/minix_usr/src/kernel/proc.c:228-235 | In every run, of two processes queued on the same destination the one ahead stays ahead as long as both wait |
| KernelOrder.MovesKeepOrder | soi2/minix_diff_2018_11_20_01_49_03/minix_usr/src/kernel/proc.c:227-236 | A joining process is behind everybody already queued; a leaving one changes no order |
| KernelOutcomes.NobodyMoreUrgent | soi2/minix_diff_2018_11_20_01_49_03/minix_usr/src/kernel/proc.c:312-328 | Between kernel entries no process that can run has a higher priority than the running one, and IDLE runs only when none can run |
| KernelOutcomes.WakePlaces | soi2/minix_diff_2018_11_20_01_49_03/minix_usr/src/kernel/proc.c:344-371 | A process that becomes ready stands behind all ready tasks or servers, or in front of all ready users |
| KernelOutcomes.BlockUnreadies | soi2/minix_diff_2018_11_20_01_49_03/minix_usr/src/kernel/proc.c:385-429 | A process that blocks leaves its ready queue and the others keep their order |
| KernelOutcomes.SendAnswers | soi2/minix_diff_2018_11_20_01_49_03/minix_usr/src/kernel/proc.c:174-237 | mini_send answers E_BAD_DEST exactly when the destination is not there or the caller may not send to it, else EFAULT exactly for a bad address, else ELOCKED exactly when queueing the caller would close a cycle of senders, else OK |
| KernelOutcomes.SendOutcome | soi2/minix_diff_2018_11_20_01_49_03/minix_usr/src/kernel/proc.c:211-237 | A failed send changes nothing; one to a waiting destination puts exactly one message into its buffer, ends its wait and readies it in its place if nothing else holds it; any other blocks its caller behind everybody queued; nothing else changes |
| KernelOutcomes.ReceiveOutcome | soi2/minix_diff_2018_11_20_01_49_03/minix_usr/src/kernel/proc.c:258-297 | A receive takes the message of the first acceptable queued sender, which is released; with none it takes a recorded interrupt; with neither its caller blocks for the source, except MM, which is told of the signals of the first process that has some; nothing else changes |
| KernelOutcomes.SysCallAnswers | soi2/minix_diff_2018_11_20_01_49_03/minix_usr/src/kernel/proc.c:137-153 | What sys_call answers, exactly: E_BAD_SRC, E_NO_PERM, the answers of mini_send, and OK |
| KernelOutcomes.SysCallOutcome | soi2/minix_diff_2018_11_20_01_49_03/minix_usr/src/kernel/proc.c:137-153 | What a system call has done: nothing when it fails, else a receive, a send, or a send followed by the wait for the answer |
| KernelOutcomes.InformOutcome | soi2/minix_diff_2018_11_20_01_49_03/minix_usr/src/kernel/system.c:1082-1093 | MM gets one message and all pending signals of the first process that has some, which is pending no more |
| KernelHandlers.InterruptOutcome | soi2/minix_diff_2018_11_20_01_49_03/minix_usr/src/kernel/proc.c:76-116 | A competing interrupt joins the end of the held queue, once; any other strikes a task that waits for it, which goes to the end of the task queue, and is recorded for one that does not |
| KernelHandlers.UnholdOutcome | soi2/minix_diff_2018_11_20_01_49_03/minix_usr/src/kernel/proc.c:605-614 | unhold() serves all held interrupts in the order in which they were held, each as an interrupt that does not compete |
| KernelHandlers.ReleaseOutcome | soi2/minix_diff_2018_11_20_01_49_03/minix_usr/src/kernel/proc.c:607-611 | The same for one round |
| KernelHandlers.CauseSigOutcome | soi2/minix_diff_2018_11_20_01_49_03/minix_usr/src/kernel/system.c:1050-1063 | A signal pending already is dropped; a new one is added and counted; the first pending one stops the process, and MM is told of it at once if it waits for anything; nothing else changes |
| KernelHandlers.SignalStops | soi2/minix_diff_2018_11_20_01_49_03/minix_usr/src/kernel/system.c:1055-1059 | A signalled process is off the ready queues and does not run |
| KernelHandlers.EndSigOutcome | soi2/minix_diff_2018_11_20_01_49_03/minix_usr/src/kernel/system.c:651-659 | SYS_ENDSIG ends exactly one signal, leaves pending ones pending, keeps SIG_PENDING exactly while one is left, and after the last readies the process if nothing else holds it; it answers E_BAD_PROC exactly for a free slot |
| KernelHandlers.NewMapOutcome | soi2/minix_diff_2018_11_20_01_49_03/minix_usr/src/kernel/system.c:272-289 | SYS_NEWMAP lifts the bar of a process without a map, and only that; it answers E_BAD_PROC exactly for no slot of the table |
| KernelHandlers.ForkOutcome | soi2/minix_diff_2018_11_20_01_49_03/minix_usr/src/kernel/system.c:215-249 | The child is its parent over again but for pid, group (pid modulo 2), signals, tracing and the missing map; it is on no queue; nothing else changes |
| KernelHandlers.ForkThenNewMap | soi2/minix_diff_2018_11_20_01_49_03/minix_usr/src/kernel/system.c:220-289 | Once its map is set the child is ready in front of all users exactly when its parent was not waiting |
| KernelHandlers.ExecOutcome | soi2/minix_diff_2018_11_20_01_49_03/minix_usr/src/kernel/system.c:339-358 | After do_exec the process no longer receives and is ready if nothing else holds it; traced, it first got the trap signal and stands |
| KernelHandlers.ExitOutcome | soi2/minix_diff_2018_11_20_01_49_03/minix_usr/src/kernel/system.c:390-435 | After do_xit the slot is free, the process is in no queue, the others keep their order, and its pending signals are no longer counted; nothing else changes |
| KernelHandlers.TraceOutcome | soi2/minix_diff_2018_11_20_01_49_03/minix_usr/src/kernel/system.c:821-909 | T_STOP sets and T_RESUME and T_STEP clear the stop; the process leaves or joins its ready queue accordingly; EIO exactly for a free slot |
| KernelHandlers.QuotaOutcome | soi2/minix_diff_2018_11_20_01_49_03/minix_usr/src/kernel/system.c:1262-1315 | The two group calls change exactly the group of the slot found, and the divider |
| KernelShares.SchedOutcome | soi2/minix_diff_2018_11_20_01_49_03/minix_usr/src/kernel/proc.c:441-475 | sched() rotates the user queue to the first head whose group is within quota, counts its turn and runs it unless a task or server is ready; with no user ready it does nothing; nothing else changes |
| KernelShares.NextGetsTurnIff | soi2/minix_diff_2018_11_20_01_49_03/minix_usr/src/kernel/proc.c:467-473 | During the first 200 rotations the next user gets the turn at once if and only if its group has had at most its percentage of turns |
| KernelShares.SharesOverRuns | soi2/minix_diff_2018_11_20_01_49_03/minix_usr/src/kernel/proc.c:441-475 | In every run, while the divider stays d and until 200 rotations were made: the counters are the turns given, a group that gets a turn ends with at most d + 1 (A) or 101 - d (B), and every call that finds a user ready gives exactly one turn |
| KernelShares.RoundRobinOverRuns | soi2/minix_diff_2018_11_20_01_49_03/minix_usr/src/kernel/proc.c:459-475 | In every run after 200 rotations, m calls in a row bring the m-th user of the queue to its head, and as many calls as there are users restore the queue |
| KernelShares.SignalsAreCounted | soi2/minix_diff_2018_11_20_01_49_03/minix_usr/src/kernel/system.c:1051-1058 | In every run p_pendcount is the number of signals that were new when they came less those ended by SYS_ENDSIG, counted from the fork, and SIG_PENDING is set exactly while it is not zero |
| Queues.ChainIsUnique | soi2/minix_diff_2018_11_20_01_49_03/minix_usr/src/kernel/proc.h:50-58 | The links stored in the table determine the queue they stand for: two queues with the same head and links are the same |
| KernelMessages.AddEdge | soi2/minix_diff_2018_11_20_01_49_03/minix_usr/src/kernel/proc.c:199-209 | For an acyclic graph of blocked senders, a new edge p to d keeps it acyclic if and only if d is not already sending, directly or through others, to p |
| KernelMessages.AcyclicMeansNoCycle | soi2/minix_diff_2018_11_20_01_49_03/minix_usr/src/kernel/proc.c:202-208 | In an acyclic graph no process sends to itself through others, so the walk of the deadlock check comes to an end |
| KernelMessages.LockedIffCycle | soi2/minix_diff_2018_11_20_01_49_03/minix_usr/src/kernel/proc.c:199-209 | mini_send returns ELOCKED exactly when queueing the caller would make the graph cyclic |
| KernelMessages.SendKeepsAcyclicIff | soi2/minix_diff_2018_11_20_01_49_03/minix_usr/src/kernel/proc.c:199-225 | The check misses a process that sends to itself: a send by a task or server keeps the graph acyclic if and only if its destination is another process |
| KernelDeadlock.SendersWait | soi2/minix_diff_2018_11_20_01_49_03/minix_usr/src/kernel/proc.c:199-209 | ELOCKED is never wrong: who sends towards the caller waits for it also when receivers from one source count as waiting |
| KernelDeadlock.SendKeepsWaitsIff | soi2/minix_diff_2018_11_20_01_49_03/minix_usr/src/kernel/proc.c:199-236 | A successful send keeps the graph of p_sendto and p_getfrom together acyclic if and only if its destination takes the message at once or does not wait for the caller through either |
| KernelDeadlock.AwaitKeepsWaitsIff | soi2/minix_diff_2018_11_20_01_49_03/minix_usr/src/kernel/proc.c:286-290 | Blocking to receive from one source keeps it acyclic if and only if the source is another process that does not wait for the receiver |
| KernelDeadlock.CircularWaitIsReached | soi2/minix_diff_2018_11_20_01_49_03/minix_usr/src/kernel/proc.c:199-209 | A run from boot of three successful calls in which three tasks come to wait for each other, which ELOCKED never reports |
| KernelMessages.MiniSendKeepsCore | soi2/minix_diff_2018_11_20_01_49_03/minix_usr/src/kernel/proc.c:174-237 | mini_send keeps queue agreement, acyclicity, no missed rendezvous and the counters |
| KernelMessages.EnqueueKeepsCore | soi2/minix_diff_2018_11_20_01_49_03/minix_usr/src/kernel/proc.c:220-236 | A sender that blocks joins exactly its destination's caller queue and leaves its ready queue, and nobody who waits misses it |
| KernelMessages.DeliverKeepsCore | soi2/minix_diff_2018_11_20_01_49_03/minix_usr/src/kernel/proc.c:211-219 | A receiver whose message comes is ready again exactly when no other flag holds it |
| KernelMessages.DequeueKeepsCore | soi2/minix_diff_2018_11_20_01_49_03/minix_usr/src/kernel/proc.c:261-275 | Taking any queued sender's message keeps the agreements; the released sender of a send-and-receive waits for the taker and misses nothing |
| KernelMessages.AwaitKeepsCore | soi2/minix_diff_2018_11_20_01_49_03/minix_usr/src/kernel/proc.c:286-290 | A process blocks receiving only when neither its caller queue nor a recorded interrupt holds what it asks for |
| KernelMessages.MiniRecKeepsCore | soi2/minix_diff_2018_11_20_01_49_03/minix_usr/src/kernel/proc.c:258-298 | mini_rec keeps all of this and leaves MM informed of every pending signal |
| KernelMessages.InformSucceeds | soi2/minix_diff_2018_11_20_01_49_03/minix_usr/src/kernel/system.c:1082-1093 | When MM waits for anything and sig_procs is positive, inform() finds a process with PENDING set and its send to MM is delivered at once, so the panic is never reached |
| KernelMessages.BothBlocks | soi2/minix_diff_2018_11_20_01_49_03/minix_usr/src/kernel/proc.c:143-153 | A send-and-receive that returns OK leaves its caller off all ready queues, no longer running, RECEIVING from the process it sent to |
| KernelMessages.SysCallKeepsInv | soi2/minix_diff_2018_11_20_01_49_03/minix_usr/src/kernel/proc.c:137-153 | A complete sys_call keeps all invariants, priority dispatch included: any function and any source, bad ones too; any destination for users, and for tasks and servers any but ANY, HARDWARE and the caller itself (the last breaks acyclicity, see SendKeepsAcyclicIff) |
| KernelState.FirstMatchIsFirst | soi2/minix_diff_2018_11_20_01_49_03/minix_usr/src/kernel/proc.c:261-263 | The position mini_rec stops at is acceptable and nothing before it is |
| KernelState.FirstPending | soi2/minix_diff_2018_11_20_01_49_03/minix_usr/src/kernel/system.c:1082-1083 | The process inform() picks is the first from the servers on with PENDING set |
| KernelInvariants.RunningIsReal | soi2/minix_diff_2018_11_20_01_49_03/minix_usr/src/kernel/proc.c:312-328 | Under the invariants the running process is a real slot without flags: IDLE, or the head of its own ready queue |
| KernelInvariants.WakeReady | soi2/minix_diff_2018_11_20_01_49_03/minix_usr/src/kernel/proc.c:344-371 | ready() on a process that becomes runnable restores the exact agreement of flags and ready queues |
| KernelInvariants.BlockReady | soi2/minix_diff_2018_11_20_01_49_03/minix_usr/src/kernel/proc.c:385-429 | unready() on a process that blocks restores it as well |
| KernelSteps.InterruptKeepsInv | soi2/minix_diff_2018_11_20_01_49_03/minix_usr/src/kernel/proc.c:59-116 | interrupt() keeps all invariants in the competing and the non-competing case, with its inlined ready() |
| KernelSteps.UnholdKeepsInv | soi2/minix_diff_2018_11_20_01_49_03/minix_usr/src/kernel/proc.c:605-614 | unhold() keeps the invariants and, without new arrivals, empties the held queue in as many rounds as it is long |
| KernelSteps.SchedKeepsInv | soi2/minix_diff_2018_11_20_01_49_03/minix_usr/src/kernel/proc.c:441-475 | sched() keeps all invariants |
| KernelSteps.NewMapKeepsInv | soi2/minix_diff_2018_11_20_01_49_03/minix_usr/src/kernel/system.c:272-289 | do_newmap keeps all invariants |
| KernelSteps.ExecKeepsInv | soi2/minix_diff_2018_11_20_01_49_03/minix_usr/src/kernel/system.c:339-358 | do_exec on a receiving user, traced or not, keeps all invariants |
| KernelSteps.ExitKeepsInv | soi2/minix_diff_2018_11_20_01_49_03/minix_usr/src/kernel/system.c:390-435 | do_xit takes the process out of its ready queue, its caller queue and the signal count |
| KernelSteps.ForkKeepsInv | soi2/minix_diff_2018_11_20_01_49_03/minix_usr/src/kernel/system.c:215-249 | do_fork gives a child that is on no queue, unmapped and without signals |
| KernelSteps.EndSigKeepsInv | soi2/minix_diff_2018_11_20_01_49_03/minix_usr/src/kernel/system.c:651-659 | do_endsig keeps p_pendcount equal to the pending signals plus those handed to MM and not ended, and readies the process at zero |
| KernelSteps.CauseSigKeepsInv | soi2/minix_diff_2018_11_20_01_49_03/minix_usr/src/kernel/system.c:1050-1063 | cause_sig keeps sig_procs equal to the number of PENDING processes and informs MM when it waits for anything |
| KernelSteps.TraceKeepsInv | soi2/minix_diff_2018_11_20_01_49_03/minix_usr/src/kernel/system.c:821-904 | T_STOP on any server or user, T_RESUME and T_STEP on a blocked one, keep all invariants |
| KernelSteps.ResumeIffBlocked | soi2/minix_diff_2018_11_20_01_49_03/minix_usr/src/kernel/system.c:893-904 | T_RESUME and T_STEP keep the invariants if and only if the process was not runnable; a runnable one is queued twice |
| KernelSteps.ChangePriGroupKeepsInv | soi2/minix_diff_2018_11_20_01_49_03/minix_usr/src/kernel/system.c:1262-1280 | do_changeprigroup keeps all invariants |
| KernelSteps.SetSchedulerIff | soi2/minix_diff_2018_11_20_01_49_03/minix_usr/src/kernel/system.c:1286-1315 | The first slot below NR_PROCS with the caller's pid decides: do_setscheduler answers 0 and sets the divider exactly when it is in group A and the argument lies strictly between 0 and 100, -3 when only the argument is wrong, -2 for group B, -1 when there is no such slot |
| KernelSteps.ChangePriGroupIff | soi2/minix_diff_2018_11_20_01_49_03/minix_usr/src/kernel/system.c:1262-1280 | do_changeprigroup flips the caller's group if and only if the caller's slot is the first of its pid below NR_PROCS; it flips the group of that first slot, answers the new group and changes nothing else, and answers -1 exactly when there is none |
| SystemTask.FirstPid | soi2/minix_diff_2018_11_20_01_49_03/minix_usr/src/kernel/system.c:1267-1268 | The loop over proc[0..NR_PROCS) stops at the first slot with the caller's pid |
| Scheduler.SchedLoopPicksFirst | soi2/minix_diff_2018_11_20_01_49_03/minix_usr/src/kernel/proc.c:458-473 | sched() ends for every user queue and history after at most 201 - sum rotations (one once sum is 200), at the first rotation whose head's group is within quota, and counts that turn |
| Scheduler.SchedLoopIsRotation | soi2/minix_diff_2018_11_20_01_49_03/minix_usr/src/kernel/proc.c:463-466 | The user queue afterwards is a rotation of what it was |
| Scheduler.ProportionalShare | soi2/minix_diff_2018_11_20_01_49_03/minix_usr/src/kernel/proc.c:441-472 | With divider d fixed, whatever the queues are, while at most 200 rotations were made group A was granted at most d + 1 turns and group B at most 101 - d |
| Scheduler.OneRotationLater | soi2/minix_diff_2018_11_20_01_49_03/minix_usr/src/kernel/proc.c:459-473 | Once 200 rotations were made, each call rotates exactly once |
| Scheduler.RoundRobinLater | soi2/minix_diff_2018_11_20_01_49_03/minix_usr/src/kernel/proc.c:459-473 | From then on n calls on an unchanged queue of n processes bring each to the front exactly once, whatever its group: the divider has no effect any more |
| KernelTable.Kernel.constructor | soi2/minix_diff_2018_11_20_01_49_03/minix_usr/src/kernel/main.c:68-136 | The boot loop on the real table yields the abstract boot state and all invariants |
| KernelTable.Kernel.PickProc | soi2/minix_diff_2018_11_20_01_49_03/minix_usr/src/kernel/proc.c:312-328 | Runs the head of the first non-empty queue, else IDLE |
| KernelTable.Kernel.Ready | soi2/minix_diff_2018_11_20_01_49_03/minix_usr/src/kernel/proc.c:344-371 | With links and tail pointers: tasks and servers to the tail, users to the front, a fresh task runs |
| KernelTable.Kernel.Unready | soi2/minix_diff_2018_11_20_01_49_03/minix_usr/src/kernel/proc.c:385-429 | Unlinks the process wherever it stands in its queue and mends the tail pointer |
| KernelTable.Kernel.SendsBack | soi2/minix_diff_2018_11_20_01_49_03/minix_usr/src/kernel/proc.c:200-209 | The deadlock walk along p_sendto terminates and finds whether dest sends, directly or through others, to the caller |
| KernelTable.Kernel.AppendCaller | soi2/minix_diff_2018_11_20_01_49_03/minix_usr/src/kernel/proc.c:228-235 | The walk to the last sender links the caller behind it |
| KernelTable.Kernel.MiniSend | soi2/minix_diff_2018_11_20_01_49_03/minix_usr/src/kernel/proc.c:174-237 | Does in place what the abstract mini_send says |
| KernelTable.Kernel.FirstSender | soi2/minix_diff_2018_11_20_01_49_03/minix_usr/src/kernel/proc.c:261-263 | Walks to the first acceptable sender and its predecessor |
| KernelTable.Kernel.MiniRec | soi2/minix_diff_2018_11_20_01_49_03/minix_usr/src/kernel/proc.c:258-298 | Does in place what the abstract mini_rec says |
| KernelTable.Kernel.Inform | soi2/minix_diff_2018_11_20_01_49_03/minix_usr/src/kernel/system.c:1082-1094 | Does in place what the abstract inform says |
| KernelTable.Kernel.SysCall | soi2/minix_diff_2018_11_20_01_49_03/minix_usr/src/kernel/proc.c:137-153 | Does in place what the abstract sys_call says, and keeps all invariants; a task or server sends neither to ANY nor to HARDWARE nor to itself |
| KernelTable.Kernel.Interrupt | soi2/minix_diff_2018_11_20_01_49_03/minix_usr/src/kernel/proc.c:76-116 | Does in place what the abstract interrupt says, and keeps all invariants |
| KernelTable.Kernel.Unhold | soi2/minix_diff_2018_11_20_01_49_03/minix_usr/src/kernel/proc.c:605-614 | Undisturbed by new interrupts, the do-while loop over the held queue ends and equals as many rounds as the queue was long |
| KernelTable.Kernel.LockSched | soi2/minix_diff_2018_11_20_01_49_03/minix_usr/src/kernel/proc.c:441-475 | Does in place what the abstract sched says, and keeps all invariants |
| KernelTable.Kernel.RotateUser | soi2/minix_diff_2018_11_20_01_49_03/minix_usr/src/kernel/proc.c:463-466 | The four assignments rotate the linked user queue, also when it has one member |
| KernelTable.Kernel.CauseSig | soi2/minix_diff_2018_11_20_01_49_03/minix_usr/src/kernel/system.c:1050-1063 | Does in place what the abstract cause_sig says, and keeps all invariants |
| KernelTable.Kernel.DoEndSig | soi2/minix_diff_2018_11_20_01_49_03/minix_usr/src/kernel/system.c:651-659 | Does in place what the abstract do_endsig says, and keeps all invariants |
| KernelTable.Kernel.DoFork | soi2/minix_diff_2018_11_20_01_49_03/minix_usr/src/kernel/system.c:215-249 | Copying the slot, links included, is the abstract do_fork, and keeps all invariants |
| KernelTable.Kernel.DoNewMap | soi2/minix_diff_2018_11_20_01_49_03/minix_usr/src/kernel/system.c:272-289 | Does in place what the abstract do_newmap says, and keeps all invariants |
| KernelTable.Kernel.DoExec | soi2/minix_diff_2018_11_20_01_49_03/minix_usr/src/kernel/system.c:339-358 | For a receiving user does in place what the abstract do_exec says, and keeps all invariants |
| KernelTable.Kernel.DoTrace | soi2/minix_diff_2018_11_20_01_49_03/minix_usr/src/kernel/system.c:821-909 | Does in place what the abstract do_trace says, and keeps all invariants; T_RESUME and T_STEP for a blocked process (see ResumeIffBlocked) |
| KernelTable.Kernel.DoChangePriGroup | soi2/minix_diff_2018_11_20_01_49_03/minix_usr/src/kernel/system.c:1262-1280 | Does in place what the abstract do_changeprigroup says, and keeps all invariants |
| KernelTable.Kernel.DoSetScheduler | soi2/minix_diff_2018_11_20_01_49_03/minix_usr/src/kernel/system.c:1286-1315 | Does in place what the abstract do_setscheduler says, and keeps all invariants |
| KernelTable.Kernel.DoXit | soi2/minix_diff_2018_11_20_01_49_03/minix_usr/src/kernel/system.c:390-435 | The search through every caller queue unlinks the exiting process and equals the abstract do_xit, and keeps all invariants |
| Monitor.RunsInv | soi4/monitor.hpp:53-92 | In every interleaving of any number of threads: the monitor's semaphore, both conditions' semaphores and the threads inside add up to 1, the waiting counts are exact, the occupancy is what is in the list and what was lost, and stays within the capacity |
| Monitor.RunsAreSafe | soi4/messagebuffer.cpp:16-98 | Every state of every run: one thread inside at most; a thread about to change the list finds a message or room; nobody waits in vain while the monitor is free; the monitor comes to a stop if and only if a push is about to write through a tail whose message has been freed |
| Monitor.StepInv | soi4/monitor.hpp:75-92 | Each single step of each thread keeps this |
| Monitor.MutualExclusion | soi4/monitor.hpp:75-81 | Two threads are never inside the monitor at once |
| Monitor.IfIsEnough | soi4/messagebuffer.cpp:20-24 | One if before the wait is enough: a thread about to take, woken or not, finds a message, one about to insert finds room |
| Monitor.NobodyWaitsInVain | soi4/messagebuffer.cpp:42-46 | When the monitor is free, consumers wait only at an empty list and producers only at a full buffer |
| Monitor.SignalledGoesNext | soi4/monitor.hpp:57-92 | After a signal there is a thread waiting on that condition and only such a thread can be the next inside, also when the signal came before its w.p() |
| Monitor.StoppedIff | soi4/monitor.hpp:75-92 | Under the invariant some thread inside or signalled can move on whenever the monitor is taken, except exactly when a push is about to write to freed memory |
| Monitor.FirstInFirstOut | soi4/messagebuffer.cpp:26-29 | In every run: ordinary messages leave in the order they came, all of them; the priority messages taken and in the list are a subsequence of those inserted, all of them while nothing is lost; what was inserted is what was taken plus the occupancy; what is lost never uses up the whole capacity |
| Monitor.PriorityFirst | soi4/messagebuffer.cpp:26-29 | In every run, what is taken is the first of the list, and an ordinary message is taken only when no priority message is in the list |
| Monitor.StepDoesItsOperation | soi4/messagebuffer.cpp:16-98 | A thread carries out the operation it started, once, with its own message: nothing is inserted or taken before, then exactly that |
| Monitor.StepFollowsMonitor | soi4/monitor.hpp:53-92 | The semaphore operations of a call come in the order of enter, wait, signal and leave |
| Monitor.EntersIff | soi4/monitor.hpp:75-77 | A thread on its way in is held up exactly while somebody is inside or has been signalled to go in |
| Monitor.RunsLoseIff | soi4/messagebuffer.cpp:51-54 | Up to any state of any run, messages have been lost if and only if some push acted on a non-empty list while tail was not the last node |
| MessageBuffer.MessageBuffer.constructor | soi4/messagebuffer.hpp:23-26 | A new buffer is empty |
| MessageBuffer.MessageBuffer.Pop | soi4/messagebuffer.cpp:26-29 | In every state: takes the first of priority then ordinary messages and keeps the links, pri_tail and what tail points to |
| MessageBuffer.MessageBuffer.Push | soi4/messagebuffer.cpp:51-61 | In every state in which tail is still in the list, or the list is empty: links the message behind tail and cuts off what was there |
| MessageBuffer.MessageBuffer.PushPri | soi4/messagebuffer.cpp:77-95 | In every state: inserts the message behind pri_tail, after any number of earlier ones, tail lagging or not; into the part cut off if pri_tail is there |
| MessageBuffer.LaterPrioritiesAreLost | soi4/messagebuffer.cpp:77-82 | Three priority messages into an empty buffer, an ordinary one and another priority one: only the first and the ordinary one are in the list, and the occupancy is 5 |
| PriorityBuffer.PushLosesExactly | soi4/messagebuffer.cpp:51-61 | A push puts its message behind tail and loses exactly the messages that were there |
| PriorityBuffer.PushPriLosesIff | soi4/messagebuffer.cpp:77-95 | push_pri inserts its message between the priority and the ordinary ones, and loses it if and only if a push has cut pri_tail off and the buffer has not been empty since |
| PriorityBuffer.TailFallsBehind | soi4/messagebuffer.cpp:77-82 | Any number of priority messages in a row leave tail right while there is an ordinary message, and otherwise behind by all of them |
| PriorityBuffer.PushAfterPriorities | soi4/messagebuffer.cpp:51-54 | An ordinary message after any number of priority ones loses nothing if there was an ordinary one, and otherwise everything after tail, the new ones included |
| ChatRings.RunsInv | soi3/chatreceive.c:51-113 | In every interleaving of start-up, producers and consumers the invariant of both rings and of semaphore 4 holds |
| ChatRings.StepInv | soi3/chatsender.c:80-86 | Each single step of each process keeps it |
| ChatRings.SetUpInv | soi3/chatreceive.c:52-78 | So does each assignment of the start-up, while others already try to enter |
| ChatRings.RunsAreSafe | soi3/chatreceive.c:81-113 | After start-up each ring's empty and full counts, slots reserved and slots being drained add up to MAX, and the values read are the first values written, in order |
| ChatRings.RunsNeverBlockInside | soi3/chatreceive.c:81-113 | Every state of every run, start-up included: one process at most holds semaphore 4, it can always take its next step, and it reads ordinary messages only while no priority message is unread |
| ChatRings.NoUnreadSlotIsOverwritten | soi3/prisender.c:81-87 | A producer about to write finds a slot without unread value, across wrap-around |
| ChatRings.NoUnwrittenSlotIsRead | soi3/chatreceive.c:83-102 | A consumer about to read finds the oldest unread value |
| ChatRings.PriorityFirst | soi3/chatreceive.c:83-101 | An ordinary message is taken and read only while no priority message is unread |
| ChatTurns.LookIff | soi3/chatreceive.c:83-109 | A consumer inside goes for a priority message if and only if one is unread, else for an ordinary one if and only if one is unread, and leaves empty-handed only when both rings are read out |
| ChatTurns.EachVisitTakesOne | soi3/chatreceive.c:82-113 | In every run, between lowering and raising semaphore 4 a consumer reads exactly one value if any was unread, the oldest priority one first, and none otherwise |
| ChatTurns.StepMovesValues | soi3/chatsender.c:83-84 | Values move only where a producer puts in its own, in its ring, and where a consumer takes the oldest unread one |
| ChatTurns.ProducerWaitsIff | soi3/chatsender.c:81-81 | A producer can reserve a slot exactly when not all MAX slots are unread or in somebody's hands |
| ChatTurns.EntersIff | soi3/chatsender.c:82-82 | A process about to lower semaphore 4 is held up exactly while start-up is not finished or somebody is inside |
| ChatRings.InsideNeverBlocks | soi3/chatreceive.c:82-113 | No process blocks between lowering and raising semaphore 4: the consumer's inner decrease always succeeds |
| ChatRings.MutualExclusion | soi3/semaphores.c:12-30 | At most one process is between lowering and raising semaphore 4, also during start-up |
| VsfsRuns.RunsRefine | soi6/cp.c:46-124 | After every run of mkfs, cp, touch and rm, as written or clearing from the start it computes, looking up, cat and load of each name give exactly the bytes last put there, and nothing for the other names; each cp must choose its place inside the bitmap and each rm must spare the blocks of other copied files |
| VsfsRuns.StepRefines | soi6/touch.c:38-81 | Each such command (cp inside the bitmap, rm harmless) has on the map of names to contents the effect it should, and returns "exists already" and "does not exist" exactly when the map says so |
| VsfsRuns.CpUpdates | soi6/cp.c:62-124 | A cp that stays inside the bitmap (see PlaceInRangeIff) binds the name to the source up to its first NUL and changes no other name |
| VsfsRuns.TouchUpdates | soi6/touch.c:38-81 | touch binds a new name to the empty file and fails exactly when the name is taken or no inode is free |
| VsfsRuns.TouchTakes | soi6/touch.c:48-75 | A successful touch takes one free inode, sets its size to 0 and its name, and leaves its starting block, both other tables and all data as they were |
| VsfsRuns.RmUpdates | soi6/rm.c:46-75 | An rm that spares the others, wherever it starts to clear, unbinds the name and changes no other name |
| VsfsRuns.ShownWhole | soi6/load.c:53-62 | cat and load, which stop at a NUL, give the whole file |
| VsfsRuns.UpToNulWhole | soi6/cp.c:62-63 | cp copies the whole source if and only if it holds no NUL |
| VsfsRuns.SmallRunsAreSafe | soi6/rm.c:51-66 | While only files below one block are copied in and none is made by touch, every cp stays inside the bitmap and every rm is harmless: file and block numbers agree |
| VsfsRuns.IntendedRmIsSafe | soi6/rm.c:51-66 | Without touch, an rm that clears from the start computed at line 51 is harmless after every run, so the disk goes on meaning the map |
| VsfsLeaks.MarkedIffOwned | soi6/cp.c:108-112 | In every run in which rm clears from the start it computes, a block is marked if and only if it belongs to a file made by cp |
| VsfsLeaks.RmLeaksNoneIff | soi6/rm.c:63-66 | A removal leaves no block behind if and only if its file owns none or the clearing starts where the file does |
| VsfsMap.CpKeepsInv | soi6/cp.c:68-124 | A cp that stays inside the bitmap keeps names unique and the extents of copied files inside the image, marked and pairwise disjoint |
| VsfsMap.TouchKeepsInv | soi6/touch.c:48-75 | So does touch, which leaves the starting block as it was |
| VsfsMap.RmKeepsInvIff | soi6/rm.c:63-66 | rm keeps this if and only if the blocks it clears, counted from the inode's index, belong to no other copied file |
| VsfsMap.RmFromKeepsInvIff | soi6/rm.c:63-66 | The same for blocks cleared from any start |
| VsfsMap.IntendedRmKeepsInv | soi6/rm.c:51-66 | An rm that clears from the start computed at line 51 keeps it for every file made by cp |
| VsfsMap.RmReleasesExtentIff | soi6/rm.c:51-66 | rm releases exactly the blocks of its file if and only if they start at the block numbered as the inode |
| VsfsMap.ExactRmIsHarmless | soi6/rm.c:51-66 | An rm of a file whose extent starts at the block numbered as its inode clears no block of another file |
| VsfsLoss.RmCanLoseAnotherFile | soi6/rm.c:63-66 | A run from mkfs in which rm b followed by cp c overwrites part of a |
| VsfsLoss.DamageIff | soi6/rm.c:63-66 | After an rm, some file of n blocks can be copied in that changes the contents of another file if and only if the place found for n blocks holds a byte of that file |
| VsfsMap.PlaceInRangeIff | soi6/cp.c:70-80 | cp's search, which reads past the bitmap, chooses a place inside it whatever lies behind it if and only if there is a long enough free run or the last block is taken |
| VsfsMap.CpOutcome | soi6/cp.c:46-130 | A cp that stays inside the bitmap succeeds exactly when the name is new, an inode is free and a long enough run of blocks is free |
| VsfsMap.CpSparesOthers | soi6/cp.c:108-120 | cp leaves every other copied file its inode, extent and bytes |
| VsfsMap.CpMakesFile | soi6/cp.c:87-120 | The new file reads as what was copied, in an extent apart from all others |
| VsfsMap.FreshInv | soi6/mkfs.c:22-57 | A new image satisfies the invariant |
| VsfsImage.FindName | soi6/cat.c:39-41 | The lookup finds the first occupied inode of that name |
| VsfsImage.FirstFit | soi6/cp.c:70-85 | The search finds the first start from which enough blocks look free |
| VsfsDisk.Disk.constructor | soi6/mkfs.c:22-82 | The zeroing loops give the abstract new image |
| VsfsDisk.Disk.Cp | soi6/cp.c:46-130 | For a search that stays inside the bitmap, the nested loops and the writes do in place what the abstract cp says, and keep the invariant |
| VsfsDisk.Disk.Rm | soi6/rm.c:46-75 | Does in place what the abstract rm says; the invariant survives exactly when the rm is harmless |
| VsfsDisk.Disk.Touch | soi6/touch.c:39-81 | Does in place what the abstract touch says, and keeps the invariant |
| VsfsDisk.Disk.Show | soi6/cat.c:39-67 | What cat prints and load writes is the file's contents, nothing if there is no such file |
| VsfsDisk.Disk.FindPlace | soi6/cp.c:70-85 | The two inner loops find the first fit |
| VsfsDisk.Disk.Length | soi6/cp.c:63-63 | strlen finds the prefix up to the first NUL; the end of the buffer counts as one |

## Left out

Kernel:

- Message bytes, copying, segments, memory maps, registers and signal frames; the address check of
  mini_send is a boolean that may come out either way.
- bill_ptr, accounting times, alarms, names, the `cycles` field and the commented-out variants of
  sched().
- The other handlers of system.c, mm/main.c, fs and the tables: they touch none of the fields
  modelled here.
- SYSSIGNON, the stack guard's panic and the interplay of restart() with k_reenter: whether an
  interrupt competes is a parameter.
- KernelTable.Kernel.Unhold: runs undisturbed, because a method cannot be interrupted; interrupts
  between its rounds are runs with `ERelease` in KernelRuns.
- Machine arithmetic: sum and process ids are unbounded.
- KernelState.State: p_messbuf is represented by the log of deliveries (source and destination).

Monitor and buffer:

- Printing, time, thread creation, the missing result of pop, the freeing of messages.
- Monitor.Act: has no step for a push through a tail whose message has been freed, because what
  that does is undefined; Monitor.RunsAreSafe says exactly when a run gets there.
- MessageBuffer.MessageBuffer.Push: is for the other states; a message inserted is a new one.

Chat:

- Printing, time and sleeps; failures of the system calls; the variants spam_tx, spam_pri,
  burst_tx and burst_pri.
- The number of messages per producer: a producer goes on for as long as it likes.

File system:

- VsfsImage.Cp: requires that its place lies inside the bitmap, because the code otherwise depends
  on stray memory; what it reads there is a parameter.
- VsfsDisk.Disk.Length: a source without NUL is taken to be followed by one; the code does not
  clear its buffer.
- Names of 96 bytes or more, access rights, times, the byte layout of inodes and superblock.
- fopen failures, a missing source file, a missing image; ls, fsinfo, rmfs and main.
- Copying superblock, bitmaps and inode table into local arrays before each command: the methods
  read the image itself.

Other: soi0, soi1 and soi5.
