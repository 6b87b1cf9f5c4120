/** What each visit to the section guarded by semaphore 4 does, in the chat of soi3: a producer
    writes its value, a consumer takes a message whenever there is one. */
module ChatTurns {

  import opened ChatRings
  import opened Totals

  /** The values written to the ring and not yet read. */
  function Unread(r: Ring): int {
    |r.written| - |r.read|
  }

  // ------------------------------------------------------------ single steps

  /** A consumer that has lowered semaphore 4 goes for a priority message if and only if there is
      one, else for an ordinary one if and only if there is one, and leaves empty-handed only when
      both rings are read out. */
  lemma LookIff(s: State, i: nat, choice: Choice)
    requires Inv(s) && i < |s.procs| && (s.procs[i].CLook? || s.procs[i].CLookOrdinary?)
    ensures Enabled(s, i, choice)
    ensures var pc' := Step(s, i, choice).procs[i];
      && (s.procs[i].CLook? ==>
            pc' == if Unread(s.priority) > 0 then CTake(Priority) else CLookOrdinary)
      && (s.procs[i].CLookOrdinary? ==>
            pc' == if Unread(s.ordinary) > 0 then CTake(Ordinary) else CLeave)
      && (pc' == CLeave ==> s.ordinary.read == s.ordinary.written && s.priority.read == s.priority.written)
  {
    InsideIsAlone(s, i);
  }

  /** Nothing is written or read. */
  predicate SameValues(r: Ring, r': Ring) {
    r'.written == r.written && r'.read == r.read
  }

  predicate SameRings(s: State, s': State) {
    SameValues(s.ordinary, s'.ordinary) && SameValues(s.priority, s'.priority)
  }

  /** One value goes into the ring of this kind. */
  predicate Wrote(s: State, kind: Kind, value: int, s': State) {
    && RingOf(s', kind).written == RingOf(s, kind).written + [value] && RingOf(s', kind).read == RingOf(s, kind).read
    && SameValues(RingOf(s, Other(kind)), RingOf(s', Other(kind)))
  }

  /** The oldest unread value comes out of the ring of this kind. */
  predicate Read(s: State, kind: Kind, s': State) {
    && Unread(RingOf(s, kind)) > 0
    && RingOf(s', kind).read == RingOf(s, kind).read + [RingOf(s, kind).written[|RingOf(s, kind).read|]]
    && RingOf(s', kind).written == RingOf(s, kind).written
    && SameValues(RingOf(s, Other(kind)), RingOf(s', Other(kind)))
  }

  lemma WriterWrites(s: State, i: nat, choice: Choice)
    requires Enabled(s, i, choice) && s.procs[i].PWrite?
    ensures Wrote(s, s.procs[i].kind, s.procs[i].value, Step(s, i, choice))
  {
  }

  lemma ReaderReads(s: State, i: nat, choice: Choice)
    requires Inv(s) && Enabled(s, i, choice) && s.procs[i].CRead?
    ensures Read(s, s.procs[i].kind, Step(s, i, choice))
  {
    NoUnwrittenSlotIsRead(s, i);
    hide Inv;
  }

  lemma OthersMoveNothing(s: State, i: nat, choice: Choice)
    requires Enabled(s, i, choice) && !s.procs[i].PWrite? && !s.procs[i].CRead?
    ensures SameRings(s, Step(s, i, choice))
  {
    hide Slot;
  }

  /** A step touches the values only where a producer writes, which puts in the value it came with,
      in the ring it came for, and where a consumer reads, which takes the oldest unread one. */
  lemma StepMovesValues(s: State, i: nat, choice: Choice)
    requires Inv(s) && Enabled(s, i, choice)
    ensures var s', pc, pc' := Step(s, i, choice), s.procs[i], Step(s, i, choice).procs[i];
      && s'.procs == s.procs[i := pc']
      && (pc.Rest? ==> pc' == if choice.Produce? then PEnter(choice.kind, choice.value) else CLook)
      && (pc.PEnter? ==> pc' == PWrite(pc.kind, pc.value))
      && (if pc.PWrite? then Wrote(s, pc.kind, pc.value, s')
          else if pc.CRead? then Read(s, pc.kind, s')
          else SameRings(s, s'))
  {
    hide Inv, Slot, Wrote, Read, SameRings;
    if s.procs[i].PWrite? {
      WriterWrites(s, i, choice);
    } else if s.procs[i].CRead? {
      ReaderReads(s, i, choice);
    } else {
      OthersMoveNothing(s, i, choice);
    }
  }

  // ------------------------------------------------------------ one visit

  /** The kind of message that a consumer entering in state s will take, if any. */
  datatype Choose = Nothing | Take(kind: Kind)

  function Chosen(s: State): Choose {
    if Unread(s.priority) > 0 then Take(Priority)
    else if Unread(s.ordinary) > 0 then Take(Ordinary)
    else Nothing
  }

  /** s differs from s0 by what the consumer whose place is pc has done since it entered in s0. */
  predicate Progress(s0: State, s: State, pc: Pc) {
    match pc
    case CLook => SameRings(s0, s)
    case CLookOrdinary => SameRings(s0, s) && Chosen(s0) != Take(Priority)
    case CTake(kind) => SameRings(s0, s) && Chosen(s0) == Take(kind)
    case CRead(kind) => SameRings(s0, s) && Chosen(s0) == Take(kind)
    case CIndex(kind) => Chosen(s0) == Take(kind) && Read(s0, kind, s)
    case CEmpty(kind) => Chosen(s0) == Take(kind) && Read(s0, kind, s)
    case CLeave => if Chosen(s0) == Nothing then SameRings(s0, s) else Read(s0, Chosen(s0).kind, s)
    case _ => false
  }

  predicate InVisit(pc: Pc) {
    pc.CLook? || pc.CLookOrdinary? || pc.CTake? || pc.CRead? || pc.CIndex? || pc.CEmpty? || pc.CLeave?
  }

  lemma EnterProgress(s: State, i: nat)
    requires Inv(s) && Enabled(s, i, Consume) && s.procs[i].Rest?
    ensures Progress(s, Step(s, i, Consume), Step(s, i, Consume).procs[i])
  {
  }

  /** Which step leads where inside a visit. */
  lemma VisitPath(s: State, i: nat, choice: Choice)
    requires Enabled(s, i, choice) && InVisit(s.procs[i]) && !s.procs[i].CLook? && !s.procs[i].CLookOrdinary?
    ensures var pc, pc' := s.procs[i], Step(s, i, choice).procs[i];
      && (pc.CTake? ==> pc' == CRead(pc.kind))
      && (pc.CRead? ==> pc' == CIndex(pc.kind))
      && (pc.CIndex? ==> pc' == CEmpty(pc.kind))
      && (pc.CEmpty? ==> pc' == CLeave)
      && (pc.CLeave? ==> pc' == Rest)
  {
    hide Slot;
  }

  lemma OwnProgress(s0: State, s: State, i: nat, choice: Choice)
    requires i < |s.procs| && Inv(s) && Enabled(s, i, choice) && InVisit(s.procs[i]) && Progress(s0, s, s.procs[i])
    requires InVisit(Step(s, i, choice).procs[i])
    ensures Progress(s0, Step(s, i, choice), Step(s, i, choice).procs[i])
  {
    hide Inv, Step, Enabled;
    StepMovesValues(s, i, choice);
    if s.procs[i].CLook? || s.procs[i].CLookOrdinary? {
      LookIff(s, i, choice);
    } else {
      VisitPath(s, i, choice);
    }
  }

  /** While i is inside, the others move no values. */
  lemma OthersProgress(s0: State, s: State, i: nat, j: nat, choice: Choice)
    requires Inv(s) && Enabled(s, j, choice) && i < |s.procs| && i != j
    requires InVisit(s.procs[i]) && Progress(s0, s, s.procs[i])
    ensures Step(s, j, choice).procs[i] == s.procs[i]
    ensures Progress(s0, Step(s, j, choice), s.procs[i])
  {
    InsideIsAlone(s, i);
    StepMovesValues(s, j, choice);
    hide Inv, PcOk, Step;
    assert Inside(s.procs[j]) == 0;
    assert SameRings(s, Step(s, j, choice));
  }

  /** Process i lowers semaphore 4 at step a to consume, and is inside from then on up to state b. */
  ghost predicate Visits(states: seq<State>, moves: seq<Move>, a: nat, b: nat, i: nat) {
    && a < b < |states| && |moves| + 1 == |states|
    && i < |states[a].procs| && states[a].procs[i].Rest? && moves[a] == Advance(i, Consume)
    && forall k :: a < k <= b ==> i < |states[k].procs| && InVisit(states[k].procs[i])
  }

  lemma {:induction false} VisitProgress(max: nat, states: seq<State>, moves: seq<Move>, a: nat, b: nat, i: nat)
    requires IsRun(max, states, moves) && Visits(states, moves, a, b, i)
    ensures Progress(states[a], states[b], states[b].procs[i])
    decreases b
  {
    hide Inv, IsStart, SetUp, Step, Progress, Enabled;
    var s, m := states[b - 1], moves[b - 1];
    RunsInv(max, states, moves, b - 1);
    assert Leads(s, m, states[b]);
    if a + 1 == b {
      EnterProgress(s, i);
    } else {
      VisitProgress(max, states, moves, a, b - 1, i);
      InsideIsAlone(s, i);
      if m.i == i {
        OwnProgress(states[a], s, i, m.choice);
      } else {
        OthersProgress(states[a], s, i, m.i, m.choice);
      }
    }
  }

  /** In every run, from the moment a consumer lowers semaphore 4 until it is about to raise it
      again, exactly one value is read if any was unread, the oldest priority one if there was one
      and else the oldest ordinary one, and none otherwise; and nothing is written. */
  lemma EachVisitTakesOne(max: nat, states: seq<State>, moves: seq<Move>, a: nat, b: nat, i: nat)
    requires IsRun(max, states, moves) && Visits(states, moves, a, b, i) && states[b].procs[i] == CLeave
    ensures var s0, s := states[a], states[b];
      if Unread(s0.priority) > 0 then Read(s0, Priority, s)
      else if Unread(s0.ordinary) > 0 then Read(s0, Ordinary, s)
      else SameRings(s0, s)
  {
    VisitProgress(max, states, moves, a, b, i);
  }

  // ------------------------------------------------------------- who may write

  /** A producer can reserve a slot of a ring exactly when not all MAX slots hold unread values or
      are in somebody's hands. */
  lemma ProducerWaitsIff(s: State, i: nat, kind: Kind, value: int)
    requires Inv(s) && s.setup == SETUP_STEPS && i < |s.procs| && s.procs[i].Rest?
    ensures Enabled(s, i, Produce(kind, value))
        <==> RingOf(s, kind).full + InHands(s, kind) < s.max
  {
  }

  function InHands(s: State, kind: Kind): int {
    if kind.Ordinary? then Total(s.procs, UsesOrdinary) else Total(s.procs, UsesPriority)
  }

  /** A process about to lower semaphore 4 is held up exactly while the start-up is not finished or
      somebody is inside. */
  lemma EntersIff(s: State, i: nat, choice: Choice)
    requires Inv(s) && i < |s.procs| && (s.procs[i].PEnter? || (s.procs[i].Rest? && choice.Consume?))
    ensures Enabled(s, i, choice)
        <==> s.setup == SETUP_STEPS && forall j :: 0 <= j < |s.procs| ==> Inside(s.procs[j]) == 0
  {
    TotalNotNegative(s.procs, Inside);
    if s.mutex > 0 {
      NobodyInside(s);
    } else if s.setup == SETUP_STEPS {
      var j := SomePositive(s.procs, Inside);
    }
  }
}
