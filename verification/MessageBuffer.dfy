/** The singly linked list of soi4/messagebuffer.cpp: priority messages first, with pointers to
    its head, to its last priority node and to its last node.  These are the bodies of pop, push
    and push_pri between the monitor operations, proved to do what PriorityBuffer says. */
module MessageBuffer {

  import opened PriorityBuffer

  class Message {
    const text: string
    var next: Message?

    constructor (text: string)
      ensures this.text == text && next == null
    {
      this.text := text;
      next := null;
    }
  }

  ghost predicate Distinct(q: seq<Message>) {
    forall i, j :: 0 <= i < j < |q| ==> q[i] != q[j]
  }

  function NextOf(q: seq<Message>, i: nat): Message? {
    if i + 1 < |q| then q[i + 1] else null
  }

  /** The nodes of q follow each other, and after the last comes null. */
  ghost predicate Chained(q: seq<Message>)
    reads q
  {
    && Distinct(q)
    && forall i {:trigger NextOf(q, i)} :: 0 <= i < |q| ==> q[i].next == NextOf(q, i)
  }

  lemma ChainedIsDistinct(q: seq<Message>)
    requires Chained(q)
    ensures Distinct(q)
  {
  }

  lemma DistinctInsert(p: seq<Message>, o: seq<Message>, m: Message)
    requires Distinct(p + o) && m !in p + o
    ensures Distinct((p + [m]) + o)
  {
    var q, r := p + o, (p + [m]) + o;
    forall i, j | 0 <= i < j < |r| ensures r[i] != r[j] {
      assert i != |p| ==> r[i] == q[if i < |p| then i else i - 1];
      assert j != |p| ==> r[j] == q[if j < |p| then j else j - 1];
    }
  }

  lemma ChainedRest(q: seq<Message>)
    requires Chained(q) && q != []
    ensures Chained(q[1..]) && q[0].next == (if q[1..] == [] then null else q[1..][0])
  {
    var r := q[1..];
    assert q[0].next == NextOf(q, 0);
    forall i | 0 <= i < |r| ensures r[i].next == NextOf(r, i) {
      assert r[i] == q[i + 1] && NextOf(r, i) == NextOf(q, i + 1);
    }
  }

  // --------------------------------------------------------- the tail pointers

  /** p is the last priority node, or some node that a push has cut off. */
  ghost predicate PriTailIs(b: Buffer<Message>, p: Message?) {
    if b.detached then p != null && p !in b.List()
    else p == if b.pri == [] then null else b.pri[|b.pri| - 1]
  }

  /** t is `behind` nodes before the end, as long as that node is in the list. */
  ghost predicate TailIs(b: Buffer<Message>, t: Message?) {
    var q := b.List();
    q != [] && !b.TailGone() ==> t == q[|q| - 1 - b.behind]
  }

  /** Taking the first node leaves pri_tail right, once it is cleared when it was that node, and
      tail until it is taken itself. */
  lemma PopTails(b: Buffer<Message>, p: Message?, t: Message?)
    requires Distinct(b.List()) && b.List() != [] && PriTailIs(b, p) && TailIs(b, t)
    ensures PriTailIs(Popped(b), if p == b.List()[0] then null else p) && TailIs(Popped(b), t)
    ensures Popped(b).List() == b.List()[1..] && Popped(b).Count() == b.Count() - 1
  {
    var q, n := b.List(), |b.pri|;
    assert n > 0 ==> q[n - 1] == b.pri[n - 1];
  }

  lemma PushTails(b: Buffer<Message>, p: Message?, m: Message)
    requires Distinct(b.List()) && PriTailIs(b, p) && !b.TailGone() && m !in b.List() && m != p
    ensures PriTailIs(Pushed(b, m), if b.List() == [] then null else p) && TailIs(Pushed(b, m), m)
  {
    PushLosesExactly(b, m);
    assert b.List() != [] && b.behind > 0 ==> b.List() == b.pri;
  }

  lemma PushPriTails(b: Buffer<Message>, p: Message?, t: Message?, m: Message)
    requires PriTailIs(b, p) && TailIs(b, t) && m !in b.List() && m != p
    ensures PriTailIs(PushedPri(b, m), m) && TailIs(PushedPri(b, m), if b.List() == [] then m else t)
  {
  }

  class MessageBuffer {
    var head: Message?
    var priTail: Message?
    var tail: Message?
    var occupancy: int

    /** The messages in the buffer, and how the two tail pointers stand to them. */
    ghost var state: Buffer<Message>

    /** From head on, the list consists of exactly the nodes of q. */
    ghost predicate ListIs(q: seq<Message>)
      reads `head, q
    {
      Chained(q) && head == if q == [] then null else q[0]
    }

    ghost predicate Valid()
      reads this, state.List()
    {
      && ListIs(state.List())
      && PriTailIs(state, priTail) && TailIs(state, tail)
      && occupancy == state.Count()
    }

    constructor ()
      ensures Valid() && state == Empty() && priTail == null
    {
      head, priTail, tail := null, null, null;
      occupancy := 0;
      state := Empty();
    }

    /** Takes the oldest priority message or, if there is none, the oldest ordinary one. */
    method Pop() returns (m: Message)
      requires Valid() && state.List() != []
      modifies this
      ensures Valid() && m == Oldest(old(state)) && state == Popped(old(state))
    {
      hide PriTailIs, TailIs, Popped, Oldest;
      ghost var b := state;
      ChainedRest(b.List());
      PopTakesFirst(b);
      PopTails(b, priTail, tail);
      hide Chained;
      m := head;
      if priTail == head {
        priTail := null;
      }
      head := head.next;
      occupancy := occupancy - 1;
      state := Popped(b);
    }

    /** A node that is not in use by the buffer. */
    ghost predicate IsNew(m: Message)
      reads `state, `priTail
    {
      m !in state.List() && m != priTail
    }

    /** Puts m behind tail, while tail is in the list: the nodes after it are cut off. */
    method Push(m: Message)
      requires Valid() && IsNew(m) && !state.TailGone()
      modifies this, m, tail
      ensures Valid() && state == Pushed(old(state), m)
      ensures priTail == if old(state).List() == [] then null else old(priTail)
    {
      hide Chained, PriTailIs, TailIs, Pushed;
      ghost var b := state;
      ChainedIsDistinct(b.List());
      PushTails(b, priTail, m);
      PushLosesExactly(b, m);
      LinkLast(m);
      occupancy := occupancy + 1;
      state := Pushed(b, m);
    }

    /** The pointer assignments of push. */
    method LinkLast(m: Message)
      requires Valid() && IsNew(m) && !state.TailGone()
      modifies `head, `priTail, `tail, m, tail
      ensures ListIs(Pushed(state, m).List()) && tail == m
      ensures priTail == if state.List() == [] then null else old(priTail)
    {
      ghost var q := state.List();
      PushLosesExactly(state, m);
      hide Pushed, PriTailIs;
      if head != null { // some messages already exist
        tail.next := m;
        tail := m;
        m.next := null;
        LinkedBehind(q, |q| - state.behind, m);
      } else { // empty buffer
        head := m;
        m.next := null;
        priTail := null;
        tail := m;
      }
    }

    /** The first k nodes of q with m linked behind them. */
    lemma LinkedBehind(q: seq<Message>, k: nat, m: Message)
      requires Distinct(q) && 0 < k <= |q| && m !in q && m.next == null && q[k - 1].next == m
      requires forall i {:trigger NextOf(q, i)} :: 0 <= i < k - 1 ==> q[i].next == NextOf(q, i)
      ensures Chained(q[..k] + [m])
    {
      var r := q[..k] + [m];
      forall i | 0 <= i < |r|
        ensures r[i].next == NextOf(r, i)
      {
        if i < k - 1 {
          assert r[i] == q[i] && NextOf(r, i) == NextOf(q, i);
        }
      }
    }

    /** Inserts m behind pri_tail.  tail does not move unless the buffer is empty. */
    method PushPri(m: Message)
      requires Valid() && IsNew(m)
      modifies this, m, priTail
      ensures Valid() && state == PushedPri(old(state), m) && priTail == m
    {
      hide Chained, PriTailIs, TailIs, PushedPri;
      ghost var b := state;
      PushPriTails(b, priTail, tail, m);
      PushPriLosesIff(b, m);
      LinkPriority(m);
      occupancy := occupancy + 1;
      state := PushedPri(b, m);
    }

    /** The pointer assignments of push_pri. */
    method LinkPriority(m: Message)
      requires Valid() && IsNew(m)
      modifies `head, `priTail, `tail, m, priTail
      ensures ListIs(PushedPri(state, m).List()) && priTail == m
      ensures tail == if state.List() == [] then m else old(tail)
    {
      hide Chained, TailIs, PushedPri;
      PushPriLosesIff(state, m);
      if head != null { // some messages already exist
        if priTail != null { // some priority messages already exist
          InsertBehind(m, state.pri, state.ord, state.detached);
        } else { // no priority message
          assert state.List() == state.ord;
          InsertFront(m, state.ord);
          assert state.pri + [m] + state.ord == [m] + state.ord;
        }
      } else { // empty buffer
        InsertOnly(m);
        assert state.pri + [m] + state.ord == [m];
      }
    }

    method InsertOnly(m: Message)
      modifies `head, `priTail, `tail, m
      ensures ListIs([m]) && priTail == m && tail == m
    {
      head := m;
      m.next := null;
      priTail := m;
      tail := m;
    }

    method InsertFront(m: Message, ghost q: seq<Message>)
      requires ListIs(q) && m !in q && q != []
      modifies `head, `priTail, m
      ensures ListIs([m] + q) && priTail == m
    {
      m.next := head;
      head := m;
      priTail := m;
      ghost var r := [m] + q;
      forall i | 0 <= i < |r| ensures r[i].next == NextOf(r, i) {
        if i > 0 {
          assert r[i] == q[i - 1] && NextOf(r, i) == NextOf(q, i - 1);
        }
      }
    }

    /** Links m behind pri_tail: in the middle of the list, or in a part that was cut off. */
    method InsertBehind(m: Message, ghost p: seq<Message>, ghost o: seq<Message>, ghost detached: bool)
      requires ListIs(p + o) && m !in p + o && priTail != null
      requires if detached then priTail !in p + o else p != [] && priTail == p[|p| - 1]
      modifies `priTail, m, priTail
      ensures ListIs(if detached then p + o else p + [m] + o) && priTail == m
    {
      ghost var q, r, k := p + o, p + [m] + o, |p| - 1;
      DistinctInsert(p, o, m);
      assert !detached ==> priTail.next == NextOf(q, k);
      m.next := priTail.next;
      priTail.next := m;
      priTail := m;
      if !detached {
        forall i | 0 <= i < |r|
          ensures r[i].next == NextOf(r, i)
        {
          if i < k {
            assert r[i] == q[i] && NextOf(r, i) == NextOf(q, i);
          } else if i == k + 1 {
            assert NextOf(r, i) == NextOf(q, k);
          } else if i > k + 1 {
            assert r[i] == q[i - 1] && NextOf(r, i) == NextOf(q, i - 1);
          }
        }
      }
    }
  }

  /** Three priority messages into an empty buffer and then an ordinary one: the second and third
      are cut off, and so is whatever push_pri inserts until the buffer has been empty. */
  method LaterPrioritiesAreLost(a: Message, b: Message, c: Message, d: Message, e: Message)
    returns (buffer: MessageBuffer)
    requires a != b && a != c && a != d && a != e && b != c && b != d && b != e && c != d && c != e && d != e
    modifies a, b, c, d, e
    ensures buffer.Valid() && buffer.state.List() == [a, d] && buffer.occupancy == 5
  {
    buffer := new MessageBuffer();
    buffer.PushPri(a);
    buffer.PushPri(b);
    buffer.PushPri(c);
    buffer.Push(d);
    buffer.PushPri(e);
  }
}
