/** The chat of soi3: two rings of MAX slots in shared memory, five semaphores, any number of
    ordinary producers, priority producers and consumers, and the start-up by whoever created the
    semaphores.  One semaphore operation or one access to shared memory per step, every
    interleaving. */
module ChatRings {

  import opened Totals

  datatype Kind = Ordinary | Priority

  /** One ring: its semaphores (0 and 1, or 2 and 3), its slots, its two indices.  `written` and
      `read` record the values that went in and came out. */
  datatype Ring = Ring(empty: nat, full: nat, buf: seq<int>, z: int, o: int, written: seq<int>, read: seq<int>)

  /** Where a process is.  PEnter has lowered "empty" and is about to lower semaphore 4; PFull is
      about to raise "full", PLeave semaphore 4.  CLook has lowered semaphore 4 and is about to
      look at semaphore 3, CLookOrdinary at semaphore 1; CTake is about to lower "full", CEmpty
      to raise "empty", CLeave to raise semaphore 4. */
  datatype Pc =
    | Rest
    | PEnter(kind: Kind, value: int)
    | PWrite(kind: Kind, value: int)
    | PIndex(kind: Kind)
    | PFull(kind: Kind)
    | PLeave
    | CLook
    | CLookOrdinary
    | CTake(kind: Kind)
    | CRead(kind: Kind)
    | CIndex(kind: Kind)
    | CEmpty(kind: Kind)
    | CLeave

  /** What a process at rest does next. */
  datatype Choice = Produce(kind: Kind, value: int) | Consume

  /** mutex is semaphore 4; setup counts the assignments of the start-up done so far. */
  datatype State = State(max: nat, procs: seq<Pc>, mutex: nat, ordinary: Ring, priority: Ring, setup: nat)

  /** A new semaphore set starts at zero; the shared memory may hold anything. */
  predicate IsStart(s: State, max: nat) {
    && s.max == max >= 1 && s.mutex == 0 && s.setup == 0
    && (forall i :: 0 <= i < |s.procs| ==> s.procs[i] == Rest)
    && FreshRing(s.ordinary, max) && FreshRing(s.priority, max)
  }

  predicate FreshRing(r: Ring, max: nat) {
    r.empty == 0 && r.full == 0 && |r.buf| == max && r.written == [] && r.read == []
  }

  function RingOf(s: State, kind: Kind): Ring {
    if kind.Ordinary? then s.ordinary else s.priority
  }

  function SetRing(s: State, kind: Kind, r: Ring): State {
    if kind.Ordinary? then s.(ordinary := r) else s.(priority := r)
  }

  const SETUP_STEPS: nat := 9

  /** The slot of the n-th value of a ring. */
  function Slot(n: int, max: nat): (k: nat)
    requires max > 0
    ensures k < max
  {
    n % max
  }

  /** The start-up: the four indices, then semaphores 0 to 4, in this order. */
  function SetUp(s: State): State
    requires s.setup < SETUP_STEPS
  {
    var s1 :=
      match s.setup
      case 0 => s.(ordinary := s.ordinary.(z := 0))
      case 1 => s.(ordinary := s.ordinary.(o := 0))
      case 2 => s.(priority := s.priority.(z := 0))
      case 3 => s.(priority := s.priority.(o := 0))
      case 4 => s.(ordinary := s.ordinary.(empty := s.max))
      case 5 => s.(ordinary := s.ordinary.(full := 0))
      case 6 => s.(priority := s.priority.(empty := s.max))
      case 7 => s.(priority := s.priority.(full := 0))
      case _ => s.(mutex := 1);
    s1.(setup := s.setup + 1)
  }

  /** May process i take its next step?  decrease() blocks at zero, and an access to the rings
      must hit a slot. */
  predicate Enabled(s: State, i: nat, choice: Choice) {
    && i < |s.procs|
    && match s.procs[i]
       case Rest => if choice.Produce? then RingOf(s, choice.kind).empty > 0 else s.mutex > 0
       case PEnter(_, _) => s.mutex > 0
       case CTake(kind) => RingOf(s, kind).full > 0
       case PWrite(kind, _) => 0 <= RingOf(s, kind).z < |RingOf(s, kind).buf|
       case CRead(kind) => 0 <= RingOf(s, kind).o < |RingOf(s, kind).buf|
       case PIndex(_) => s.max > 0
       case CIndex(_) => s.max > 0
       case _ => true
  }

  function Goto(s: State, i: nat, pc: Pc): State
    requires i < |s.procs|
  {
    s.(procs := s.procs[i := pc])
  }

  function Step(s: State, i: nat, choice: Choice): (s': State)
    requires Enabled(s, i, choice)
    ensures |s'.procs| == |s.procs|
  {
    match s.procs[i]
    case Rest =>
      if choice.Produce? then
        var r := RingOf(s, choice.kind);
        Goto(SetRing(s, choice.kind, r.(empty := r.empty - 1)), i, PEnter(choice.kind, choice.value))
      else Goto(s.(mutex := s.mutex - 1), i, CLook)
    case PEnter(kind, value) => Goto(s.(mutex := s.mutex - 1), i, PWrite(kind, value))
    case PWrite(kind, value) =>
      var r := RingOf(s, kind);
      Goto(SetRing(s, kind, r.(buf := r.buf[r.z := value], written := r.written + [value])), i, PIndex(kind))
    case PIndex(kind) =>
      var r := RingOf(s, kind);
      Goto(SetRing(s, kind, r.(z := Slot(r.z + 1, s.max))), i, PFull(kind))
    case PFull(kind) =>
      var r := RingOf(s, kind);
      Goto(SetRing(s, kind, r.(full := r.full + 1)), i, PLeave)
    case PLeave => Goto(s.(mutex := s.mutex + 1), i, Rest)
    case CLook => Goto(s, i, if s.priority.full != 0 then CTake(Priority) else CLookOrdinary)
    case CLookOrdinary => Goto(s, i, if s.ordinary.full != 0 then CTake(Ordinary) else CLeave)
    case CTake(kind) =>
      var r := RingOf(s, kind);
      Goto(SetRing(s, kind, r.(full := r.full - 1)), i, CRead(kind))
    case CRead(kind) =>
      var r := RingOf(s, kind);
      Goto(SetRing(s, kind, r.(read := r.read + [r.buf[r.o]])), i, CIndex(kind))
    case CIndex(kind) =>
      var r := RingOf(s, kind);
      Goto(SetRing(s, kind, r.(o := Slot(r.o + 1, s.max))), i, CEmpty(kind))
    case CEmpty(kind) =>
      var r := RingOf(s, kind);
      Goto(SetRing(s, kind, r.(empty := r.empty + 1)), i, CLeave)
    case CLeave => Goto(s.(mutex := s.mutex + 1), i, Rest)
  }

  // ---------------------------------------------------------------- counting

  function Inside(pc: Pc): int {
    if pc.Rest? || pc.PEnter? then 0 else 1
  }

  /** 1 for a producer that has reserved a slot of the ring and not announced it yet, and for a
      consumer that has taken a value off it and not given the slot back yet. */
  function Uses(pc: Pc, kind: Kind): nat {
    match pc
    case PEnter(k, _) => if k == kind then 1 else 0
    case PWrite(k, _) => if k == kind then 1 else 0
    case PIndex(k) => if k == kind then 1 else 0
    case PFull(k) => if k == kind then 1 else 0
    case CRead(k) => if k == kind then 1 else 0
    case CIndex(k) => if k == kind then 1 else 0
    case CEmpty(k) => if k == kind then 1 else 0
    case _ => 0
  }

  function UsesOrdinary(pc: Pc): int { Uses(pc, Ordinary) }

  function UsesPriority(pc: Pc): int { Uses(pc, Priority) }

  lemma Moved(procs: seq<Pc>, i: nat, pc: Pc)
    requires i < |procs|
    ensures Total(procs[i := pc], Inside) == Total(procs, Inside) - Inside(procs[i]) + Inside(pc)
    ensures Total(procs[i := pc], UsesOrdinary) == Total(procs, UsesOrdinary) - UsesOrdinary(procs[i]) + UsesOrdinary(pc)
    ensures Total(procs[i := pc], UsesPriority) == Total(procs, UsesPriority) - UsesPriority(procs[i]) + UsesPriority(pc)
  {
    TotalUpdate(procs, Inside, i, pc);
    TotalUpdate(procs, UsesOrdinary, i, pc);
    TotalUpdate(procs, UsesPriority, i, pc);
  }

  // ------------------------------------------------------------------- rings

  /** The values written and not yet read are in their slots, oldest first, wrapping around. */
  ghost predicate RingOk(r: Ring, max: nat) {
    && max >= 1 && |r.buf| == max
    && r.read <= r.written && |r.written| - |r.read| <= max
    && forall k {:trigger r.written[k]} :: |r.read| <= k < |r.written| ==> r.buf[Slot(k, max)] == r.written[k]
  }

  /** The state of a ring between two accesses: indices and "full" tell how much was written and
      read; `ahead` is 1 while "full" lags one behind. */
  predicate Settled(r: Ring, max: nat, ahead: nat)
    requires max >= 1
  {
    && |r.written| == |r.read| + r.full + ahead
    && r.z == Slot(|r.written|, max)
    && r.o == Slot(|r.read|, max)
  }

  lemma NextIndex(n: nat, max: nat)
    requires max >= 1
    ensures Slot(Slot(n, max) + 1, max) == Slot(n + 1, max)
  {
    var q, r := n / max, n % max;
    assert n == q * max + r;
    if r + 1 < max {
      Remainder(n + 1, max, q, r + 1);
      Remainder(r + 1, max, 0, r + 1);
    } else {
      assert n + 1 == (q + 1) * max;
      Remainder(n + 1, max, q + 1, 0);
      Remainder(r + 1, max, 1, 0);
    }
  }

  lemma Remainder(x: nat, max: nat, q: nat, r: nat)
    requires r < max && x == q * max + r
    ensures x % max == r
  {
    var q', r' := x / max, x % max;
    assert x == q' * max + r';
    assert (q - q') * max == r' - r;
    MultipleOutside(q - q', max);
  }

  lemma MultipleOutside(d: int, max: int)
    requires max >= 1
    ensures d == 0 || d * max >= max || d * max <= -max
  {
  }

  /** Fewer than max apart, two counts never share a slot. */
  lemma OtherSlot(k: nat, n: nat, max: nat)
    requires max >= 1 && k < n < k + max
    ensures Slot(k, max) != Slot(n, max)
  {
    MultipleOutside(n / max - k / max, max);
    assert (n / max - k / max) * max == n - k - (n % max - k % max);
  }

  /** Writing the next value at z when the ring is not full keeps every unread value. */
  lemma WriteOk(r: Ring, max: nat, value: int)
    requires RingOk(r, max) && r.z == Slot(|r.written|, max) && |r.written| - |r.read| < max
    ensures RingOk(r.(buf := r.buf[r.z := value], written := r.written + [value]), max)
  {
    var r' := r.(buf := r.buf[r.z := value], written := r.written + [value]);
    forall k | |r'.read| <= k < |r'.written| ensures r'.buf[Slot(k, max)] == r'.written[k] {
      if k < |r.written| {
        OtherSlot(k, |r.written|, max);
        assert r'.written[k] == r.written[k];
      }
    }
  }

  /** Reading at o when something is unread yields the oldest unread value. */
  lemma ReadOk(r: Ring, max: nat)
    requires RingOk(r, max) && r.o == Slot(|r.read|, max) && |r.read| < |r.written|
    ensures r.o < |r.buf| && r.buf[r.o] == r.written[|r.read|]
    ensures RingOk(r.(read := r.read + [r.buf[r.o]]), max)
  {
  }

  // --------------------------------------------------------------- invariant

  /** Both rings as they are while nobody is between two accesses. */
  predicate Quiet(s: State)
    requires s.max >= 1
  {
    Settled(s.ordinary, s.max, 0) && Settled(s.priority, s.max, 0)
  }

  function Other(kind: Kind): Kind {
    if kind.Ordinary? then Priority else Ordinary
  }

  /** What holds at each place inside the section guarded by semaphore 4. */
  predicate PcOk(s: State, pc: Pc)
    requires s.max >= 1
  {
    match pc
    case Rest => true
    case PEnter(_, _) => true
    case PIndex(kind) => Settled(RingOf(s, Other(kind)), s.max, 0) && AboutToStep(s, RingOf(s, kind))
    case PFull(kind) => Settled(RingOf(s, Other(kind)), s.max, 0) && Settled(RingOf(s, kind), s.max, 1)
    case CLookOrdinary => Quiet(s) && s.priority.full == 0
    case CTake(kind) => Quiet(s) && RingOf(s, kind).full > 0 && (kind.Ordinary? ==> s.priority.full == 0)
    case CRead(kind) =>
      && Settled(RingOf(s, Other(kind)), s.max, 0) && Settled(RingOf(s, kind), s.max, 1)
      && (kind.Ordinary? ==> s.priority.full == 0)
    case CIndex(kind) => Settled(RingOf(s, Other(kind)), s.max, 0) && HasRead(s, RingOf(s, kind))
    case _ => Quiet(s)
  }

  /** A value has been written and z not moved on yet. */
  predicate AboutToStep(s: State, r: Ring)
    requires s.max >= 1
  {
    && |r.written| == |r.read| + r.full + 1
    && r.z == Slot(|r.written| - 1, s.max)
    && r.o == Slot(|r.read|, s.max)
  }

  /** A value has been read and o not moved on yet. */
  predicate HasRead(s: State, r: Ring)
    requires s.max >= 1
  {
    && |r.written| == |r.read| + r.full
    && |r.read| >= 1
    && r.z == Slot(|r.written|, s.max)
    && r.o == Slot(|r.read| - 1, s.max)
  }

  /** During the start-up nothing is in the rings yet, and what was assigned stays. */
  predicate SettingUp(s: State) {
    && s.ordinary.written == [] && s.ordinary.full == 0 && s.priority.written == [] && s.priority.full == 0
    && (s.setup > 0 ==> s.ordinary.z == 0) && (s.setup > 1 ==> s.ordinary.o == 0)
    && (s.setup > 2 ==> s.priority.z == 0) && (s.setup > 3 ==> s.priority.o == 0)
  }

  /** empty + full + reserved by producers + being drained == MAX, once "empty" is set. */
  ghost predicate SlotsCount(s: State) {
    && s.ordinary.empty + s.ordinary.full + Total(s.procs, UsesOrdinary) == (if s.setup > 4 then s.max else 0)
    && s.priority.empty + s.priority.full + Total(s.procs, UsesPriority) == (if s.setup > 6 then s.max else 0)
  }

  ghost predicate Inv(s: State) {
    && s.max >= 1 && s.setup <= SETUP_STEPS
    && s.mutex + Total(s.procs, Inside) == (if s.setup == SETUP_STEPS then 1 else 0)
    && SlotsCount(s)
    && RingOk(s.ordinary, s.max) && RingOk(s.priority, s.max)
    && (s.setup < SETUP_STEPS ==> SettingUp(s))
    && (s.mutex > 0 ==> Quiet(s))
    && forall i :: 0 <= i < |s.procs| ==> PcOk(s, s.procs[i])
  }

  lemma StartInv(s: State, max: nat)
    requires IsStart(s, max)
    ensures Inv(s)
  {
    TotalZero(s.procs, Inside);
    TotalZero(s.procs, UsesOrdinary);
    TotalZero(s.procs, UsesPriority);
  }

  /** Until semaphore 4 is raised nobody gets past it. */
  lemma SetUpInv(s: State)
    requires Inv(s) && s.setup < SETUP_STEPS
    ensures Inv(SetUp(s))
  {
    TotalNotNegative(s.procs, Inside);
    TotalNotNegative(s.procs, UsesOrdinary);
    TotalNotNegative(s.procs, UsesPriority);
    NobodyInside(s);
  }

  lemma NobodyInside(s: State)
    requires Inv(s) && Total(s.procs, Inside) == 0
    ensures forall i :: 0 <= i < |s.procs| ==> Inside(s.procs[i]) == 0
  {
    forall i | 0 <= i < |s.procs| ensures Inside(s.procs[i]) == 0 {
      TotalAtLeast(s.procs, Inside, i);
    }
  }

  lemma InsideIsAlone(s: State, i: nat)
    requires Inv(s) && i < |s.procs| && Inside(s.procs[i]) == 1
    ensures s.mutex == 0 && s.setup == SETUP_STEPS
    ensures forall j :: 0 <= j < |s.procs| && j != i ==> Inside(s.procs[j]) == 0
    ensures PcOk(s, s.procs[i])
  {
    TotalAtLeast(s.procs, Inside, i);
  }

  /** Nobody blocks, or misses the slots, between lowering and raising semaphore 4. */
  lemma InsideNeverBlocks(s: State, i: nat, choice: Choice)
    requires Inv(s) && i < |s.procs| && Inside(s.procs[i]) == 1
    ensures Enabled(s, i, choice)
  {
  }

  /** "empty" plays no part in the places inside. */
  lemma EmptyIsIndifferent(s: State, kind: Kind, n: nat, pc: Pc)
    requires s.max >= 1
    ensures PcOk(SetRing(s, kind, RingOf(s, kind).(empty := n)), pc) == PcOk(s, pc)
  {
    hide Slot;
  }

  lemma ProduceStep(s: State, i: nat, choice: Choice)
    requires Inv(s) && Enabled(s, i, choice) && s.procs[i].Rest? && choice.Produce?
    ensures Inv(Step(s, i, choice))
  {
    hide PcOk;
    var s' := Step(s, i, choice);
    Moved(s.procs, i, s'.procs[i]);
    forall j | 0 <= j < |s'.procs| ensures PcOk(s', s'.procs[j]) {
      EmptyIsIndifferent(s.(procs := s'.procs), choice.kind, RingOf(s, choice.kind).empty - 1, s'.procs[j]);
      ProcsAreIndifferent(s, s'.procs, s'.procs[j]);
      OutsideIsOk(s', i);
    }
  }

  lemma ProcsAreIndifferent(s: State, procs: seq<Pc>, pc: Pc)
    requires s.max >= 1
    ensures PcOk(s.(procs := procs), pc) == PcOk(s, pc)
  {
  }

  lemma OutsideIsOk(s: State, i: nat)
    requires s.max >= 1 && i < |s.procs| && Inside(s.procs[i]) == 0
    ensures PcOk(s, s.procs[i])
  {
  }

  /** Lowering semaphore 4. */
  lemma EnterStep(s: State, i: nat, choice: Choice)
    requires Inv(s) && Enabled(s, i, choice) && (s.procs[i].PEnter? || (s.procs[i].Rest? && choice.Consume?))
    ensures Inv(Step(s, i, choice))
  {
    TotalNotNegative(s.procs, Inside);
    Moved(s.procs, i, Step(s, i, choice).procs[i]);
    NobodyInside(s);
  }

  lemma WriteStep(s: State, i: nat, choice: Choice)
    requires Inv(s) && Enabled(s, i, choice) && s.procs[i].PWrite?
    ensures Inv(Step(s, i, choice))
  {
    hide RingOk, Slot;
    Moved(s.procs, i, Step(s, i, choice).procs[i]);
    InsideIsAlone(s, i);
    TotalAtLeast(s.procs, UsesOrdinary, i);
    TotalAtLeast(s.procs, UsesPriority, i);
    WriteOk(RingOf(s, s.procs[i].kind), s.max, s.procs[i].value);
  }

  lemma IndexStep(s: State, i: nat, choice: Choice)
    requires Inv(s) && Enabled(s, i, choice) && s.procs[i].PIndex?
    ensures Inv(Step(s, i, choice))
  {
    hide RingOk, Slot;
    var kind := s.procs[i].kind;
    IndexFrame(RingOf(s, kind), s.max, RingOf(Step(s, i, choice), kind).z, RingOf(s, kind).o);
    Moved(s.procs, i, Step(s, i, choice).procs[i]);
    InsideIsAlone(s, i);
    NextIndex(|RingOf(s, s.procs[i].kind).written| - 1, s.max);
  }

  /** The semaphores of a ring do not matter to its contents. */
  lemma RingFrame(r: Ring, max: nat, empty: nat, full: nat)
    ensures RingOk(r.(empty := empty, full := full), max) == RingOk(r, max)
  {
  }

  lemma IndexFrame(r: Ring, max: nat, z: int, o: int)
    ensures RingOk(r.(z := z, o := o), max) == RingOk(r, max)
  {
  }

  lemma FullStep(s: State, i: nat, choice: Choice)
    requires Inv(s) && Enabled(s, i, choice) && s.procs[i].PFull?
    ensures Inv(Step(s, i, choice))
  {
    hide RingOk, Slot;
    var r := RingOf(s, s.procs[i].kind);
    RingFrame(r, s.max, r.empty, r.full + 1);
    Moved(s.procs, i, Step(s, i, choice).procs[i]);
    InsideIsAlone(s, i);
  }

  lemma LeaveStep(s: State, i: nat, choice: Choice)
    requires Inv(s) && Enabled(s, i, choice) && (s.procs[i].PLeave? || s.procs[i].CLeave?)
    ensures Inv(Step(s, i, choice))
  {
    Moved(s.procs, i, Step(s, i, choice).procs[i]);
    InsideIsAlone(s, i);
  }

  lemma LookStep(s: State, i: nat, choice: Choice)
    requires Inv(s) && Enabled(s, i, choice) && (s.procs[i].CLook? || s.procs[i].CLookOrdinary?)
    ensures Inv(Step(s, i, choice))
  {
    Moved(s.procs, i, Step(s, i, choice).procs[i]);
    InsideIsAlone(s, i);
  }

  lemma TakeStep(s: State, i: nat, choice: Choice)
    requires Inv(s) && Enabled(s, i, choice) && s.procs[i].CTake?
    ensures Inv(Step(s, i, choice))
  {
    hide RingOk, Slot;
    var r := RingOf(s, s.procs[i].kind);
    RingFrame(r, s.max, r.empty, r.full - 1);
    Moved(s.procs, i, Step(s, i, choice).procs[i]);
    InsideIsAlone(s, i);
  }

  lemma ReadStep(s: State, i: nat, choice: Choice)
    requires Inv(s) && Enabled(s, i, choice) && s.procs[i].CRead?
    ensures Inv(Step(s, i, choice))
  {
    Moved(s.procs, i, Step(s, i, choice).procs[i]);
    InsideIsAlone(s, i);
    hide RingOk, Slot;
    ReadOk(RingOf(s, s.procs[i].kind), s.max);
  }

  lemma DrainStep(s: State, i: nat, choice: Choice)
    requires Inv(s) && Enabled(s, i, choice) && s.procs[i].CIndex?
    ensures Inv(Step(s, i, choice))
  {
    hide RingOk, Slot;
    var kind := s.procs[i].kind;
    IndexFrame(RingOf(s, kind), s.max, RingOf(s, kind).z, RingOf(Step(s, i, choice), kind).o);
    Moved(s.procs, i, Step(s, i, choice).procs[i]);
    InsideIsAlone(s, i);
    NextIndex(|RingOf(s, s.procs[i].kind).read| - 1, s.max);
  }

  lemma EmptyStep(s: State, i: nat, choice: Choice)
    requires Inv(s) && Enabled(s, i, choice) && s.procs[i].CEmpty?
    ensures Inv(Step(s, i, choice))
  {
    hide RingOk, Slot;
    var r := RingOf(s, s.procs[i].kind);
    RingFrame(r, s.max, r.empty + 1, r.full);
    Moved(s.procs, i, Step(s, i, choice).procs[i]);
    InsideIsAlone(s, i);
  }

  lemma StepInv(s: State, i: nat, choice: Choice)
    requires Inv(s) && Enabled(s, i, choice)
    ensures Inv(Step(s, i, choice))
  {
    hide Inv, Step;
    match s.procs[i] {
      case Rest => if choice.Produce? { ProduceStep(s, i, choice); } else { EnterStep(s, i, choice); }
      case PEnter(_, _) => EnterStep(s, i, choice);
      case PWrite(_, _) => WriteStep(s, i, choice);
      case PIndex(_) => IndexStep(s, i, choice);
      case PFull(_) => FullStep(s, i, choice);
      case PLeave => LeaveStep(s, i, choice);
      case CLook => LookStep(s, i, choice);
      case CLookOrdinary => LookStep(s, i, choice);
      case CTake(_) => TakeStep(s, i, choice);
      case CRead(_) => ReadStep(s, i, choice);
      case CIndex(_) => DrainStep(s, i, choice);
      case CEmpty(_) => EmptyStep(s, i, choice);
      case CLeave => LeaveStep(s, i, choice);
    }
  }

  // -------------------------------------------------------------------- runs

  datatype Move = Prepare | Advance(i: nat, choice: Choice)

  ghost predicate Leads(s: State, m: Move, s': State) {
    match m
    case Prepare => s.setup < SETUP_STEPS && s' == SetUp(s)
    case Advance(i, choice) => Enabled(s, i, choice) && s' == Step(s, i, choice)
  }

  /** states is a run from a fresh semaphore set; start-up and processes interleave freely. */
  ghost predicate IsRun(max: nat, states: seq<State>, moves: seq<Move>) {
    && |states| == |moves| + 1
    && IsStart(states[0], max)
    && forall k :: 0 <= k < |moves| ==> Leads(states[k], moves[k], states[k + 1])
  }

  lemma {:induction false} RunsInv(max: nat, states: seq<State>, moves: seq<Move>, k: nat)
    requires IsRun(max, states, moves) && k < |states|
    ensures Inv(states[k])
  {
    hide Inv, IsStart, SetUp, Step;
    if k == 0 {
      StartInv(states[0], max);
    } else {
      RunsInv(max, states, moves, k - 1);
      var s, m := states[k - 1], moves[k - 1];
      assert Leads(s, m, states[k]);
      if m.Prepare? {
        SetUpInv(s);
      } else {
        StepInv(s, m.i, m.choice);
      }
    }
  }

  /** In every reachable state: each ring's slots are accounted for, and what has come out of it
      is what went in first. */
  lemma RunsAreSafe(max: nat, states: seq<State>, moves: seq<Move>, k: nat)
    requires IsRun(max, states, moves) && k < |states| && states[k].setup == SETUP_STEPS
    ensures var s := states[k];
            && s.ordinary.empty + s.ordinary.full + Total(s.procs, UsesOrdinary) == s.max
            && s.priority.empty + s.priority.full + Total(s.procs, UsesPriority) == s.max
            && s.ordinary.read <= s.ordinary.written && s.priority.read <= s.priority.written
            && |s.ordinary.written| - |s.ordinary.read| <= s.max
            && |s.priority.written| - |s.priority.read| <= s.max
  {
    RunsInv(max, states, moves, k);
  }

  /** A producer about to write finds a slot that holds no unread value. */
  lemma NoUnreadSlotIsOverwritten(s: State, i: nat, j: nat)
    requires Inv(s) && i < |s.procs| && s.procs[i].PWrite?
    requires var r := RingOf(s, s.procs[i].kind); |r.read| <= j < |r.written|
    ensures Slot(j, s.max) != RingOf(s, s.procs[i].kind).z
  {
    InsideIsAlone(s, i);
    TotalAtLeast(s.procs, UsesOrdinary, i);
    TotalAtLeast(s.procs, UsesPriority, i);
    OtherSlot(j, |RingOf(s, s.procs[i].kind).written|, s.max);
  }

  /** A consumer about to read finds the oldest value not yet read. */
  lemma NoUnwrittenSlotIsRead(s: State, i: nat)
    requires Inv(s) && i < |s.procs| && s.procs[i].CRead?
    ensures var r := RingOf(s, s.procs[i].kind);
            |r.read| < |r.written| && 0 <= r.o < |r.buf| && r.buf[r.o] == r.written[|r.read|]
  {
  }

  /** An ordinary message is taken and read only while no priority message is unread. */
  lemma PriorityFirst(s: State, i: nat)
    requires Inv(s) && i < |s.procs| && (s.procs[i] == CTake(Ordinary) || s.procs[i] == CRead(Ordinary))
    ensures s.priority.read == s.priority.written
  {
  }

  /** At most one process is between lowering and raising semaphore 4, also during start-up. */
  lemma MutualExclusion(s: State, i: nat, j: nat)
    requires Inv(s) && i < |s.procs| && j < |s.procs| && i != j
    ensures !(Inside(s.procs[i]) == 1 && Inside(s.procs[j]) == 1)
  {
    TotalAtLeast(s.procs, Inside, i);
  }

  /** Every state of every run, start-up included: at most one process is inside, it can always go
      on, and it reads ordinary messages only while no priority message is unread. */
  lemma RunsNeverBlockInside(max: nat, states: seq<State>, moves: seq<Move>, k: nat)
    requires IsRun(max, states, moves) && k < |states|
    ensures var s := states[k];
      && (forall i, j :: 0 <= i < j < |s.procs| ==> !(Inside(s.procs[i]) == 1 && Inside(s.procs[j]) == 1))
      && (forall i: nat, choice :: i < |s.procs| && Inside(s.procs[i]) == 1 ==> Enabled(s, i, choice))
      && (forall i :: 0 <= i < |s.procs| && s.procs[i] == CRead(Ordinary) ==> s.priority.read == s.priority.written)
  {
    hide Inv, Enabled;
    var s := states[k];
    RunsInv(max, states, moves, k);
    forall i, j | 0 <= i < j < |s.procs|
      ensures !(Inside(s.procs[i]) == 1 && Inside(s.procs[j]) == 1)
    {
      MutualExclusion(s, i, j);
    }
    forall i: nat, choice | i < |s.procs| && Inside(s.procs[i]) == 1
      ensures Enabled(s, i, choice)
    {
      InsideNeverBlocks(s, i, choice);
    }
    forall i | 0 <= i < |s.procs| && s.procs[i] == CRead(Ordinary)
      ensures s.priority.read == s.priority.written
    {
      PriorityFirst(s, i);
    }
  }
}
