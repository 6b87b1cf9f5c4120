/** The signal-and-wait monitor of soi4/monitor.hpp around the bounded priority buffer of
    soi4/messagebuffer.cpp, as a machine of threads: any number of threads, one semaphore
    operation or one access to the shared fields per step, every interleaving. */
module Monitor {

  import opened PriorityBuffer
  import opened Totals

  /** What a thread does next: take a message, or insert m as an ordinary or priority one. */
  datatype Op = Pop | Push(m: nat) | PushPri(m: nat)

  datatype Cond = Prod | Cons

  /** Where a thread is.  Entering, Waiting and Reentering are about to do p() on s, on the
      condition's semaphore, and on s again after a signal; Leaving, Posting and Exiting are about
      to do v(). */
  datatype Pc =
    | Idle
    | Entering(op: Op)
    | Checking(op: Op)
    | Counting(op: Op)
    | Leaving(op: Op)
    | Waiting(op: Op)
    | Acting(op: Op)
    | Signalling(c: Cond)
    | Posting(c: Cond)
    | Reentering
    | Exiting

  /** s, w and waiting are the monitor's semaphore, the two conditions' semaphores and their
      waitingCount fields.  The four histories record what was inserted and taken. */
  datatype State = State(
    capacity: nat,
    threads: seq<Pc>,
    s: nat,
    wProd: nat, wCons: nat,
    waitProd: int, waitCons: int,
    buffer: Buffer<nat>,
    occupancy: int,
    sentPri: seq<nat>, sentOrd: seq<nat>, gotPri: seq<nat>, gotOrd: seq<nat>)

  function WaitsOn(op: Op): Cond {
    if op.Pop? then Cons else Prod
  }

  function Signals(op: Op): Cond {
    if op.Pop? then Prod else Cons
  }

  function W(s: State, c: Cond): nat {
    if c.Prod? then s.wProd else s.wCons
  }

  function WaitCount(s: State, c: Cond): int {
    if c.Prod? then s.waitProd else s.waitCons
  }

  function SetW(s: State, c: Cond, v: nat): State {
    if c.Prod? then s.(wProd := v) else s.(wCons := v)
  }

  function SetWait(s: State, c: Cond, v: int): State {
    if c.Prod? then s.(waitProd := v) else s.(waitCons := v)
  }

  function Start(capacity: nat, n: nat): State {
    State(capacity, seq(n, _ => Idle), 1, 0, 0, 0, 0, Empty(), 0, [], [], [], [])
  }

  /** May thread i take its next step?  Only p() can block; a pop from nothing and a push through
      a tail that has been freed are no steps. */
  predicate Enabled(s: State, i: nat) {
    && i < |s.threads|
    && match s.threads[i]
       case Entering(_) => s.s > 0
       case Reentering => s.s > 0
       case Waiting(op) => W(s, WaitsOn(op)) > 0
       case Acting(op) => CanAct(s, op)
       case _ => true
  }

  predicate CanAct(s: State, op: Op) {
    && (op.Pop? ==> s.buffer.List() != [])
    && (op.Push? ==> !s.buffer.TailGone())
  }

  /** The list part of pop, push and push_pri. */
  function Act(s: State, op: Op): State
    requires CanAct(s, op)
  {
    match op
    case Pop =>
      var s1 := s.(buffer := Popped(s.buffer), occupancy := s.occupancy - 1);
      if s.buffer.pri != [] then s1.(gotPri := s.gotPri + [Oldest(s.buffer)])
      else s1.(gotOrd := s.gotOrd + [Oldest(s.buffer)])
    case Push(m) =>
      s.(buffer := Pushed(s.buffer, m), occupancy := s.occupancy + 1, sentOrd := s.sentOrd + [m])
    case PushPri(m) =>
      s.(buffer := PushedPri(s.buffer, m), occupancy := s.occupancy + 1, sentPri := s.sentPri + [m])
  }

  function Goto(s: State, i: nat, pc: Pc): State
    requires i < |s.threads|
  {
    s.(threads := s.threads[i := pc])
  }

  /** The step of thread i; an idle thread starts op. */
  function Step(s: State, i: nat, op: Op): State
    requires Enabled(s, i)
  {
    match s.threads[i]
    case Idle => Goto(s, i, Entering(op))
    case Entering(o) => Goto(s.(s := s.s - 1), i, Checking(o))
    case Checking(o) =>
      if (if o.Pop? then s.buffer.List() == [] else s.occupancy == s.capacity) then Goto(s, i, Counting(o))
      else Goto(s, i, Acting(o))
    case Counting(o) => Goto(SetWait(s, WaitsOn(o), WaitCount(s, WaitsOn(o)) + 1), i, Leaving(o))
    case Leaving(o) => Goto(s.(s := s.s + 1), i, Waiting(o))
    case Waiting(o) => Goto(SetW(s, WaitsOn(o), W(s, WaitsOn(o)) - 1), i, Acting(o))
    case Acting(o) => Goto(Act(s, o), i, Signalling(Signals(o)))
    case Signalling(c) =>
      if WaitCount(s, c) != 0 then Goto(SetWait(s, c, WaitCount(s, c) - 1), i, Posting(c))
      else Goto(s, i, Exiting)
    case Posting(c) => Goto(SetW(s, c, W(s, c) + 1), i, Reentering)
    case Reentering => Goto(s.(s := s.s - 1), i, Exiting)
    case Exiting => Goto(s.(s := s.s + 1), i, Idle)
  }

  // ------------------------------------------------------------- counting threads

  function Inside(pc: Pc): int {
    match pc
    case Idle | Entering(_) | Waiting(_) | Reentering => 0
    case _ => 1
  }

  /** Threads counted, or about to be served, as waiting on c: those between ++waitingCount and
      the end of w.p(), less the signals under way. */
  function Owed(pc: Pc, c: Cond): int {
    match pc
    case Leaving(op) => if WaitsOn(op) == c then 1 else 0
    case Waiting(op) => if WaitsOn(op) == c then 1 else 0
    case Posting(d) => if d == c then -1 else 0
    case _ => 0
  }

  function OwedProd(pc: Pc): int { Owed(pc, Prod) }

  function OwedCons(pc: Pc): int { Owed(pc, Cons) }

  /** While nobody is inside, what is owed on c is the number of threads waiting on c. */
  lemma SomebodyWaits(threads: seq<Pc>, c: Cond) returns (i: nat)
    requires Total(threads, if c.Prod? then OwedProd else OwedCons) > 0
    requires forall i :: 0 <= i < |threads| ==> Inside(threads[i]) == 0
    ensures i < |threads| && threads[i].Waiting? && WaitsOn(threads[i].op) == c
  {
    i := SomePositive(threads, if c.Prod? then OwedProd else OwedCons);
    assert Inside(threads[i]) == 0;
  }

  // ------------------------------------------------------------------- invariant

  /** Nobody waits in vain: consumers only at an empty list, producers only at a full buffer.
      emptyAt and fullAt allow for an insertion or removal whose signal is still to come. */
  predicate Fair(s: State, emptyAt: int, fullAt: int) {
    && (s.waitCons > 0 ==> |s.buffer.List()| == emptyAt)
    && (s.waitProd > 0 ==> s.occupancy == fullAt)
  }

  /** The buffer is ready for op, and a waiter left over after op will still wait rightly. */
  predicate ReadyFor(s: State, consumer: bool) {
    if consumer then s.buffer.List() != [] && Fair(s, 1, s.capacity)
    else s.occupancy < s.capacity && Fair(s, 0, s.capacity - 1)
  }

  predicate PcOk(s: State, pc: Pc) {
    match pc
    case Checking(_) | Exiting => Fair(s, 0, s.capacity)
    case Counting(op) =>
      Fair(s, 0, s.capacity) && if op.Pop? then s.buffer.List() == [] else s.occupancy == s.capacity
    case Leaving(op) => Fair(s, 0, s.capacity)
    case Acting(op) => ReadyFor(s, op.Pop?)
    case Signalling(c) => ReadyFor(s, c.Cons?)
    case Posting(c) => ReadyFor(s, c.Cons?)
    case _ => true
  }

  ghost predicate Inv(s: State) {
    && s.capacity >= 1
    // the baton
    && s.s + s.wProd + s.wCons + Total(s.threads, Inside) == 1
    // who is counted as waiting
    && s.waitProd >= 0 && s.waitCons >= 0
    && s.waitProd + s.wProd == Total(s.threads, OwedProd)
    && s.waitCons + s.wCons == Total(s.threads, OwedCons)
    // the buffer
    && s.occupancy == s.buffer.Count() <= s.capacity && s.buffer.lost < s.capacity
    && (s.s > 0 ==> Fair(s, 0, s.capacity))
    && (s.wCons > 0 ==> ReadyFor(s, true))
    && (s.wProd > 0 ==> ReadyFor(s, false))
    && (forall i :: 0 <= i < |s.threads| ==> PcOk(s, s.threads[i]))
    && InOrder(s)
  }

  /** First in, first out within each class; what is lost are priority messages. */
  predicate InOrder(s: State) {
    && s.sentOrd == s.gotOrd + s.buffer.ord
    && Sub(s.gotPri + s.buffer.pri, s.sentPri)
    && |s.sentPri| == |s.gotPri| + |s.buffer.pri| + s.buffer.lost
  }

  lemma StartInv(capacity: nat, n: nat)
    requires capacity >= 1
    ensures Inv(Start(capacity, n))
  {
    var threads := Start(capacity, n).threads;
    TotalZero(threads, Inside);
    TotalZero(threads, OwedProd);
    TotalZero(threads, OwedCons);
  }

  /** The three totals after thread i has moved to pc. */
  lemma Moved(threads: seq<Pc>, i: nat, pc: Pc)
    requires i < |threads|
    ensures Total(threads[i := pc], Inside) == Total(threads, Inside) - Inside(threads[i]) + Inside(pc)
    ensures Total(threads[i := pc], OwedProd) == Total(threads, OwedProd) - OwedProd(threads[i]) + OwedProd(pc)
    ensures Total(threads[i := pc], OwedCons) == Total(threads, OwedCons) - OwedCons(threads[i]) + OwedCons(pc)
  {
    TotalUpdate(threads, Inside, i, pc);
    TotalUpdate(threads, OwedProd, i, pc);
    TotalUpdate(threads, OwedCons, i, pc);
  }

  /** A thread that is inside is alone there, and no semaphore is up. */
  lemma InsideIsAlone(s: State, i: nat)
    requires Inv(s) && i < |s.threads| && Inside(s.threads[i]) == 1
    ensures s.s == 0 && s.wProd == 0 && s.wCons == 0
    ensures forall j :: 0 <= j < |s.threads| && j != i ==> Inside(s.threads[j]) == 0
  {
    TotalAtLeast(s.threads, Inside, i);
  }

  /** A semaphore that is up means nobody is inside. */
  lemma UpMeansEmpty(s: State)
    requires Inv(s) && s.s + s.wProd + s.wCons > 0
    ensures s.s + s.wProd + s.wCons == 1
    ensures forall j :: 0 <= j < |s.threads| ==> Inside(s.threads[j]) == 0
  {
    TotalNotNegative(s.threads, Inside);
    forall j | 0 <= j < |s.threads| ensures Inside(s.threads[j]) == 0 {
      TotalAtLeast(s.threads, Inside, j);
    }
  }

  lemma InOrderFrame(s: State, s': State)
    requires s'.buffer == s.buffer
    requires s'.sentPri == s.sentPri && s'.sentOrd == s.sentOrd && s'.gotPri == s.gotPri && s'.gotOrd == s.gotOrd
    ensures InOrder(s') == InOrder(s)
  {
  }

  lemma StartStep(s: State, i: nat, op: Op)
    requires Inv(s) && Enabled(s, i) && s.threads[i].Idle?
    ensures Inv(Step(s, i, op))
  {
    hide InOrder;
    InOrderFrame(s, Step(s, i, op));
    Moved(s.threads, i, Step(s, i, op).threads[i]);
  }

  lemma EnterStep(s: State, i: nat, op: Op)
    requires Inv(s) && Enabled(s, i) && (s.threads[i].Entering? || s.threads[i].Reentering?)
    ensures Inv(Step(s, i, op))
  {
    hide InOrder;
    InOrderFrame(s, Step(s, i, op));
    Moved(s.threads, i, Step(s, i, op).threads[i]);
    UpMeansEmpty(s);
  }

  lemma WakeStep(s: State, i: nat, op: Op)
    requires Inv(s) && Enabled(s, i) && s.threads[i].Waiting?
    ensures Inv(Step(s, i, op))
  {
    hide InOrder;
    InOrderFrame(s, Step(s, i, op));
    Moved(s.threads, i, Step(s, i, op).threads[i]);
    UpMeansEmpty(s);
  }

  lemma CheckStep(s: State, i: nat, op: Op)
    requires Inv(s) && Enabled(s, i) && s.threads[i].Checking?
    ensures Inv(Step(s, i, op))
  {
    hide InOrder;
    InOrderFrame(s, Step(s, i, op));
    Moved(s.threads, i, Step(s, i, op).threads[i]);
    InsideIsAlone(s, i);
  }

  lemma ExitStep(s: State, i: nat, op: Op)
    requires Inv(s) && Enabled(s, i) && s.threads[i].Exiting?
    ensures Inv(Step(s, i, op))
  {
    hide InOrder;
    InOrderFrame(s, Step(s, i, op));
    Moved(s.threads, i, Step(s, i, op).threads[i]);
    InsideIsAlone(s, i);
  }

  lemma WaitStep(s: State, i: nat, op: Op)
    requires Inv(s) && Enabled(s, i) && (s.threads[i].Counting? || s.threads[i].Leaving?)
    ensures Inv(Step(s, i, op))
  {
    hide InOrder;
    InOrderFrame(s, Step(s, i, op));
    Moved(s.threads, i, Step(s, i, op).threads[i]);
    InsideIsAlone(s, i);
  }

  /** Acting on the list turns "ready for op" into "ready for those op signals", and what is lost
      never takes the last place. */
  lemma ActIsReady(s: State, op: Op)
    requires CanAct(s, op) && ReadyFor(s, op.Pop?)
    requires s.occupancy == s.buffer.Count() <= s.capacity && s.buffer.lost < s.capacity
    ensures var s' := Act(s, op);
            && ReadyFor(s', Signals(op).Cons?)
            && s'.occupancy == s'.buffer.Count() <= s'.capacity && s'.buffer.lost < s.capacity
            && s' == s.(buffer := s'.buffer, occupancy := s'.occupancy,
                        sentPri := s'.sentPri, sentOrd := s'.sentOrd, gotPri := s'.gotPri, gotOrd := s'.gotOrd)
  {
  }

  lemma ActInOrder(s: State, op: Op)
    requires CanAct(s, op) && InOrder(s)
    ensures InOrder(Act(s, op))
  {
    hide InOrder;
    match op
    case Pop => PopInOrder(s);
    case Push(m) => PushInOrder(s, m);
    case PushPri(m) => PushPriInOrder(s, m);
  }

  lemma PopInOrder(s: State)
    requires CanAct(s, Pop) && InOrder(s)
    ensures InOrder(Act(s, Pop))
  {
    hide Sub;
    var b := s.buffer;
    if b.pri != [] {
      assert (s.gotPri + [b.pri[0]]) + b.pri[1..] == s.gotPri + b.pri;
    } else {
      assert (s.gotOrd + [b.ord[0]]) + b.ord[1..] == s.gotOrd + b.ord;
    }
  }

  lemma PushInOrder(s: State, m: nat)
    requires CanAct(s, Push(m)) && InOrder(s)
    ensures InOrder(Act(s, Push(m)))
  {
    hide Sub;
    var b := s.buffer;
    if b.List() != [] && b.behind > 0 {
      var all, k := s.gotPri + b.pri, |b.pri| - b.behind;
      SubPrefix(all, s.sentPri, |s.gotPri| + k);
      assert all[..|s.gotPri| + k] == s.gotPri + b.pri[..k];
    }
  }

  lemma PushPriInOrder(s: State, m: nat)
    requires InOrder(s)
    ensures InOrder(Act(s, PushPri(m)))
  {
    hide Sub, PushedPri;
    PushPriByClass(s.buffer, m);
    SubAppend(s.gotPri + s.buffer.pri, s.sentPri, m);
    assert (s.gotPri + s.buffer.pri) + [m] == s.gotPri + (s.buffer.pri + [m]);
  }

  lemma ActStep(s: State, i: nat, op: Op)
    requires Inv(s) && Enabled(s, i) && s.threads[i].Acting?
    ensures Inv(Step(s, i, op))
  {
    assert PcOk(s, s.threads[i]);
    Moved(s.threads, i, Step(s, i, op).threads[i]);
    InsideIsAlone(s, i);
    hide Act, ReadyFor, InOrder;
    ActIsReady(s, s.threads[i].op);
    ActInOrder(s, s.threads[i].op);
    InOrderFrame(Act(s, s.threads[i].op), Step(s, i, op));
  }

  lemma SignalStep(s: State, i: nat, op: Op)
    requires Inv(s) && Enabled(s, i) && s.threads[i].Signalling?
    ensures Inv(Step(s, i, op))
  {
    hide InOrder;
    InOrderFrame(s, Step(s, i, op));
    assert PcOk(s, s.threads[i]);
    Moved(s.threads, i, Step(s, i, op).threads[i]);
    InsideIsAlone(s, i);
    SignalledIsReady(s, s.threads[i].c);
  }

  /** With no waiter the signaller may leave; with one, that one will find what it needs. */
  lemma SignalledIsReady(s: State, c: Cond)
    requires ReadyFor(s, c.Cons?) && s.waitProd >= 0 && s.waitCons >= 0
    ensures WaitCount(s, c) == 0 ==> Fair(s, 0, s.capacity)
    ensures WaitCount(s, c) > 0 ==> ReadyFor(SetWait(s, c, WaitCount(s, c) - 1), c.Cons?)
  {
  }

  lemma PostStep(s: State, i: nat, op: Op)
    requires Inv(s) && Enabled(s, i) && s.threads[i].Posting?
    ensures Inv(Step(s, i, op))
  {
    hide InOrder;
    InOrderFrame(s, Step(s, i, op));
    assert PcOk(s, s.threads[i]);
    Moved(s.threads, i, Step(s, i, op).threads[i]);
    InsideIsAlone(s, i);
  }

  lemma StepInv(s: State, i: nat, op: Op)
    requires Inv(s) && Enabled(s, i)
    ensures Inv(Step(s, i, op))
  {
    hide Inv, Step;
    match s.threads[i] {
      case Checking(_) => CheckStep(s, i, op);
      case Exiting => ExitStep(s, i, op);
      case Counting(_) => WaitStep(s, i, op);
      case Leaving(_) => WaitStep(s, i, op);
      case Acting(_) => ActStep(s, i, op);
      case Signalling(_) => SignalStep(s, i, op);
      case Posting(_) => PostStep(s, i, op);
      case Idle => StartStep(s, i, op);
      case Waiting(_) => WakeStep(s, i, op);
      case _ => EnterStep(s, i, op);
    }
  }

  // -------------------------------------------------------------------- runs

  /** states is a run of n threads in which, at step k, thread who[k] moves and, if idle, starts
      ops[k]. */
  ghost predicate IsRun(capacity: nat, n: nat, states: seq<State>, who: seq<nat>, ops: seq<Op>) {
    && |states| == |who| + 1 == |ops| + 1
    && states[0] == Start(capacity, n)
    && forall k :: 0 <= k < |who| ==> Leads(states[k], who[k], ops[k], states[k + 1])
  }

  ghost predicate Leads(s: State, i: nat, op: Op, s': State) {
    Enabled(s, i) && s' == Step(s, i, op)
  }

  lemma {:induction false} RunsInv(capacity: nat, n: nat, states: seq<State>, who: seq<nat>, ops: seq<Op>, k: nat)
    requires capacity >= 1 && IsRun(capacity, n, states, who, ops) && k < |states|
    ensures Inv(states[k])
  {
    hide Inv, Step;
    if k == 0 {
      StartInv(capacity, n);
    } else {
      RunsInv(capacity, n, states, who, ops, k - 1);
      assert Leads(states[k - 1], who[k - 1], ops[k - 1], states[k]);
      StepInv(states[k - 1], who[k - 1], ops[k - 1]);
    }
  }

  /** At most one thread is inside the monitor, in every reachable state. */
  lemma MutualExclusion(s: State, i: nat, j: nat)
    requires Inv(s) && i < |s.threads| && j < |s.threads| && i != j
    ensures !(Inside(s.threads[i]) == 1 && Inside(s.threads[j]) == 1)
  {
    TotalAtLeast(s.threads, Inside, i);
  }

  /** One `if` before the wait is enough: a thread about to change the list, woken or not, finds
      something to take or room to insert. */
  lemma IfIsEnough(s: State, i: nat)
    requires Inv(s) && i < |s.threads| && s.threads[i].Acting?
    ensures if s.threads[i].op.Pop? then s.buffer.List() != [] else s.occupancy < s.capacity
  {
    assert PcOk(s, s.threads[i]);
  }

  /** When the monitor is free, consumers wait only at an empty list and producers only at a full
      buffer. */
  lemma NobodyWaitsInVain(s: State, i: nat)
    requires Inv(s) && s.s == 1 && i < |s.threads| && s.threads[i].Waiting?
    ensures if s.threads[i].op.Pop? then s.buffer.List() == [] else s.occupancy == s.capacity
  {
    UpMeansEmpty(s);
    assert forall j :: 0 <= j < |s.threads| ==> Inside(s.threads[j]) == 0;
    TotalAtLeast(s.threads, OwedProd, i);
    TotalAtLeast(s.threads, OwedCons, i);
  }

  /** Once a condition's semaphore is up, the next thread inside can only be one that waited on
      that condition, and there is one: nobody else gets in first. */
  lemma SignalledGoesNext(s: State, c: Cond) returns (next: nat)
    requires Inv(s) && W(s, c) > 0
    ensures Enabled(s, next) && s.threads[next].Waiting? && WaitsOn(s.threads[next].op) == c
    ensures forall i: nat, op: Op :: Enabled(s, i) && Inside(Step(s, i, op).threads[i]) == 1 ==>
              s.threads[i].Waiting? && WaitsOn(s.threads[i].op) == c
  {
    UpMeansEmpty(s);
    next := SomebodyWaits(s.threads, c);
    forall i: nat, op: Op | Enabled(s, i) && Inside(Step(s, i, op).threads[i]) == 1
      ensures s.threads[i].Waiting? && WaitsOn(s.threads[i].op) == c
    {
      assert Inside(s.threads[i]) == 0;
    }
  }

  // ------------------------------------------------- what each operation does

  datatype Option<T> = None | Some(value: T)

  /** The operation a thread has started and not yet carried out. */
  function Started(pc: Pc): Option<Op> {
    match pc
    case Entering(op) => Some(op)
    case Checking(op) => Some(op)
    case Counting(op) => Some(op)
    case Leaving(op) => Some(op)
    case Waiting(op) => Some(op)
    case Acting(op) => Some(op)
    case _ => None
  }

  predicate SameMessages(s: State, s': State) {
    && s'.buffer == s.buffer && s'.occupancy == s.occupancy
    && s'.sentPri == s.sentPri && s'.sentOrd == s.sentOrd && s'.gotPri == s.gotPri && s'.gotOrd == s.gotOrd
  }

  /** The first message of the list was taken, and a priority one if there was one. */
  ghost predicate TookFirst(s: State, s': State) {
    && s.buffer.List() != [] && s'.buffer.List() == s.buffer.List()[1..]
    && s'.sentPri == s.sentPri && s'.sentOrd == s.sentOrd
    && if s.buffer.pri != [] then s'.gotPri == s.gotPri + [s.buffer.List()[0]] && s'.gotOrd == s.gotOrd
       else s'.gotOrd == s.gotOrd + [s.buffer.List()[0]] && s'.gotPri == s.gotPri
  }

  /** m was inserted: behind tail, as an ordinary message. */
  ghost predicate Inserted(s: State, m: nat, s': State) {
    && s'.sentOrd == s.sentOrd + [m] && s'.sentPri == s.sentPri && s'.gotPri == s.gotPri && s'.gotOrd == s.gotOrd
    && var q := s.buffer.List();
       s'.buffer.List() == (if q == [] || s.buffer.behind >= |q| then [] else q[..|q| - s.buffer.behind]) + [m]
  }

  /** m was inserted: between the priority and the ordinary messages, if pri_tail is in the list. */
  ghost predicate InsertedPri(s: State, m: nat, s': State) {
    && s'.sentPri == s.sentPri + [m] && s'.sentOrd == s.sentOrd && s'.gotPri == s.gotPri && s'.gotOrd == s.gotOrd
    && s'.buffer.List() == if s.buffer.List() != [] && s.buffer.detached then s.buffer.List()
                           else s.buffer.pri + [m] + s.buffer.ord
  }

  lemma ActDoes(s: State, op: Op, threads: seq<Pc>)
    requires CanAct(s, op)
    ensures Act(s, op).threads == s.threads
    ensures var s' := Act(s, op).(threads := threads);
      && (op.Pop? ==> TookFirst(s, s'))
      && (op.Push? ==> Inserted(s, op.m, s'))
      && (op.PushPri? ==> InsertedPri(s, op.m, s'))
  {
    hide Pushed, PushedPri;
    match op
    case Pop => PopTakesFirst(s.buffer);
    case Push(m) => PushLosesExactly(s.buffer, m);
    case PushPri(m) => PushPriLosesIff(s.buffer, m);
  }

  /** A thread carries out the operation it started, once, with the message it was given, and moves
      no other thread: until it acts nothing is inserted or taken, then exactly its message is. */
  lemma StepDoesItsOperation(s: State, i: nat, op: Op)
    requires Enabled(s, i)
    ensures var s' := Step(s, i, op);
      var pc, pc' := s.threads[i], s'.threads[i];
      && s'.threads == s.threads[i := pc']
      && (pc.Idle? ==> Started(pc') == Some(op) && SameMessages(s, s'))
      && (!pc.Idle? && !pc.Acting? ==> Started(pc') == Started(pc) && SameMessages(s, s'))
      && (pc.Acting? ==> Started(pc') == None)
      && (pc == Acting(Pop) ==> TookFirst(s, s'))
      && (pc.Acting? && pc.op.Push? ==> Inserted(s, pc.op.m, s'))
      && (pc.Acting? && pc.op.PushPri? ==> InsertedPri(s, pc.op.m, s'))
  {
    hide TookFirst, Inserted, InsertedPri, Act;
    if s.threads[i].Acting? {
      ActDoes(s, s.threads[i].op, Step(s, i, op).threads);
    }
  }

  /** The semaphore operations of a call, in the order of the monitor: in by enter(); out of a wait by
      leave() and in again by the condition; a signaller with somebody to signal raises the condition
      and then enters anew; and back to its caller only by leave(). */
  lemma StepFollowsMonitor(s: State, i: nat, op: Op)
    requires Enabled(s, i)
    ensures var s', pc, pc' := Step(s, i, op), s.threads[i], Step(s, i, op).threads[i];
      && s'.s == s.s + (if pc.Leaving? || pc.Exiting? then 1 else if pc.Entering? || pc.Reentering? then -1 else 0)
      && (forall c: Cond ::
            && W(s', c) == W(s, c) + (if pc == Posting(c) then 1
                                      else if pc.Waiting? && WaitsOn(pc.op) == c then -1 else 0)
            && WaitCount(s', c) == WaitCount(s, c) + (if pc.Counting? && WaitsOn(pc.op) == c then 1
                                                      else if pc == Signalling(c) && WaitCount(s, c) != 0 then -1 else 0))
      && (pc'.Idle? <==> pc.Exiting?)
      && (pc.Entering? ==> pc' == Checking(pc.op))
      && (pc.Checking? ==> pc' == if MustWait(s, pc.op) then Counting(pc.op) else Acting(pc.op))
      && (pc.Counting? ==> pc' == Leaving(pc.op)) && (pc.Leaving? ==> pc' == Waiting(pc.op))
      && (pc.Waiting? ==> pc' == Acting(pc.op))
      && (pc.Acting? ==> pc' == Signalling(if pc.op.Pop? then Prod else Cons))
      && (pc.Signalling? ==> pc' == if WaitCount(s, pc.c) != 0 then Posting(pc.c) else Exiting)
      && (pc.Posting? ==> pc' == Reentering) && (pc.Reentering? ==> pc' == Exiting)
  {
  }

  /** A consumer must wait at an empty list, a producer at a full buffer. */
  predicate MustWait(s: State, op: Op) {
    if op.Pop? then s.buffer.List() == [] else s.occupancy == s.capacity
  }

  /** A thread on its way in, or in again after a signal, is held up exactly while somebody is inside
      or has been signalled to go in. */
  lemma EntersIff(s: State, i: nat)
    requires Inv(s) && i < |s.threads| && (s.threads[i].Entering? || s.threads[i].Reentering?)
    ensures Enabled(s, i) <==> s.wProd == 0 && s.wCons == 0 && forall j :: 0 <= j < |s.threads| ==> Inside(s.threads[j]) == 0
  {
    if s.s > 0 {
      UpMeansEmpty(s);
    } else if s.wProd == 0 && s.wCons == 0 {
      var j := SomePositive(s.threads, Inside);
    }
  }

  // ----------------------------------------------------------- when it stops

  /** Nobody can enter, leave or be woken: at most threads outside make up their minds. */
  ghost predicate Stopped(s: State) {
    s.s == 0 && forall i: nat :: Enabled(s, i) ==> s.threads[i].Idle?
  }

  /** Thread i is about to write through a tail pointer whose message has been freed. */
  ghost predicate WritesToFreed(s: State, i: nat) {
    i < |s.threads| && s.threads[i].Acting? && s.threads[i].op.Push? && s.buffer.TailGone()
  }

  /** Somebody inside the monitor can move on, or somebody on the way in, except when a push is
      about to write to freed memory; then nobody can. */
  lemma StoppedIff(s: State)
    requires Inv(s)
    ensures Stopped(s) <==> exists i :: WritesToFreed(s, i)
  {
    if i: nat :| WritesToFreed(s, i) {
      InsideIsAlone(s, i);
    } else if s.s == 0 {
      var i := BatonHolder(s);
      assert Enabled(s, i) && !s.threads[i].Idle?;
    }
  }

  /** While the monitor is taken there is a thread inside, or one that was signalled. */
  lemma BatonHolder(s: State) returns (i: nat)
    requires Inv(s) && s.s == 0 && !exists i :: WritesToFreed(s, i)
    ensures Enabled(s, i) && (Inside(s.threads[i]) == 1 || s.threads[i].Waiting?)
  {
    if s.wProd + s.wCons > 0 {
      i := SignalledGoesNext(s, if s.wProd > 0 then Prod else Cons);
    } else {
      i := SomePositive(s.threads, Inside);
      if s.threads[i].Acting? {
        IfIsEnough(s, i);
        assert !WritesToFreed(s, i);
      }
    }
  }

  // ------------------------------------------------------- what runs may lose

  /** Thread i's next step puts an ordinary message behind a tail that lags. */
  predicate PushLags(s: State, i: nat) {
    && i < |s.threads| && s.threads[i].Acting? && s.threads[i].op.Push?
    && s.buffer.List() != [] && s.buffer.behind > 0
  }

  lemma StepLost(s: State, i: nat, op: Op)
    requires Enabled(s, i)
    ensures Step(s, i, op).buffer.lost >= s.buffer.lost
    ensures s.buffer.lost == 0 ==> (Step(s, i, op).buffer.lost > 0 <==> PushLags(s, i))
  {
  }

  /** Up to any state of any run, messages have been lost if and only if some push acted on a
      list whose tail lagged behind. */
  lemma {:induction false} RunsLoseIff(capacity: nat, n: nat, states: seq<State>, who: seq<nat>, ops: seq<Op>, k: nat)
    requires IsRun(capacity, n, states, who, ops) && k < |states|
    ensures states[k].buffer.lost > 0 <==> exists j :: 0 <= j < k && PushLags(states[j], who[j])
  {
    if k > 0 {
      RunsLoseIff(capacity, n, states, who, ops, k - 1);
      assert Leads(states[k - 1], who[k - 1], ops[k - 1], states[k]);
      StepLost(states[k - 1], who[k - 1], ops[k - 1]);
    }
  }

  /** In every run, at each step: only a thread taking a message makes the record of taken messages
      grow, it takes the first of the list, and an ordinary one only when no priority message is in
      the list. */
  lemma PriorityFirst(capacity: nat, n: nat, states: seq<State>, who: seq<nat>, ops: seq<Op>, k: nat)
    requires IsRun(capacity, n, states, who, ops) && k < |who|
    ensures var s, s' := states[k], states[k + 1];
      && (s'.gotOrd != s.gotOrd ==> s.buffer.pri == [])
      && (s'.gotOrd != s.gotOrd || s'.gotPri != s.gotPri ==> TookFirst(s, s'))
      && (who[k] < |s.threads| && s.threads[who[k]] == Acting(Pop) ==> TookFirst(s, s'))
  {
    assert Leads(states[k], who[k], ops[k], states[k + 1]);
    StepDoesItsOperation(states[k], who[k], ops[k]);
  }

  /** In every run messages of either class leave in the order they came, ordinary ones without
      exception; what was inserted is what was taken, what is in the list and what is lost, and
      losses never use up the whole capacity. */
  lemma FirstInFirstOut(capacity: nat, n: nat, states: seq<State>, who: seq<nat>, ops: seq<Op>, k: nat)
    requires capacity >= 1 && IsRun(capacity, n, states, who, ops) && k < |states|
    ensures var s := states[k];
      && s.sentOrd == s.gotOrd + s.buffer.ord
      && Sub(s.gotPri + s.buffer.pri, s.sentPri)
      && (s.buffer.lost == 0 ==> s.sentPri == s.gotPri + s.buffer.pri)
      && |s.sentPri| + |s.sentOrd| == |s.gotPri| + |s.gotOrd| + s.occupancy
      && s.occupancy == |s.buffer.List()| + s.buffer.lost <= capacity && s.buffer.lost < capacity
  {
    RunsInv(capacity, n, states, who, ops, k);
    RunsCapacity(capacity, n, states, who, ops, k);
    SubLength(states[k].gotPri + states[k].buffer.pri, states[k].sentPri);
  }

  lemma {:induction false} RunsCapacity(capacity: nat, n: nat, states: seq<State>, who: seq<nat>, ops: seq<Op>, k: nat)
    requires IsRun(capacity, n, states, who, ops) && k < |states|
    ensures states[k].capacity == capacity
  {
    if k > 0 {
      RunsCapacity(capacity, n, states, who, ops, k - 1);
      assert Leads(states[k - 1], who[k - 1], ops[k - 1], states[k]);
    }
  }

  /** Every state of every run: one thread inside at most, a thread that changes the list finds
      what it needs, nobody waits in vain while the monitor is free, and the monitor goes on unless
      a push is about to write to freed memory. */
  lemma RunsAreSafe(capacity: nat, n: nat, states: seq<State>, who: seq<nat>, ops: seq<Op>, k: nat)
    requires capacity >= 1 && IsRun(capacity, n, states, who, ops) && k < |states|
    ensures var s := states[k];
      && (forall i, j :: 0 <= i < j < |s.threads| ==> !(Inside(s.threads[i]) == 1 && Inside(s.threads[j]) == 1))
      && (forall i: nat :: i < |s.threads| && s.threads[i].Acting? ==>
            if s.threads[i].op.Pop? then s.buffer.List() != [] else s.occupancy < s.capacity)
      && (forall i: nat :: i < |s.threads| && s.threads[i].Waiting? && s.s == 1 ==>
            if s.threads[i].op.Pop? then s.buffer.List() == [] else s.occupancy == s.capacity)
      && (Stopped(s) <==> exists i :: WritesToFreed(s, i))
  {
    hide Inv, Stopped, WritesToFreed;
    var s := states[k];
    RunsInv(capacity, n, states, who, ops, k);
    StoppedIff(s);
    forall i, j | 0 <= i < j < |s.threads|
      ensures !(Inside(s.threads[i]) == 1 && Inside(s.threads[j]) == 1)
    {
      MutualExclusion(s, i, j);
    }
    forall i: nat | i < |s.threads| && s.threads[i].Acting?
      ensures if s.threads[i].op.Pop? then s.buffer.List() != [] else s.occupancy < s.capacity
    {
      IfIsEnough(s, i);
    }
    forall i: nat | i < |s.threads| && s.threads[i].Waiting? && s.s == 1
      ensures if s.threads[i].op.Pop? then s.buffer.List() == [] else s.occupancy == s.capacity
    {
      NobodyWaitsInVain(s, i);
    }
  }
}
