/** Duplicate-free queues of process slots, and how a chain of links stored in a table
    represents one.  The kernel's caller queues, ready queues and held-interrupt queue are
    all such chains. */
module Queues {

  /** The null link. */
  const NIL: int := -1

  ghost predicate NoDup(q: seq<nat>) {
    forall i, j :: 0 <= i < j < |q| ==> q[i] != q[j]
  }

  lemma HeadIsMember(q: seq<nat>)
    ensures q != [] ==> q[0] in q
  {
  }

  /** q without the element at index i. */
  function Without(q: seq<nat>, i: nat): seq<nat>
    requires i < |q|
  {
    q[..i] + q[i + 1..]
  }

  /** q without its first occurrence of x; q itself when x does not occur. */
  function Remove(q: seq<nat>, x: nat): seq<nat> {
    if q == [] then [] else if q[0] == x then q[1..] else [q[0]] + Remove(q[1..], x)
  }

  lemma {:induction false} RemoveAt(q: seq<nat>, x: nat, i: nat)
    requires NoDup(q) && i < |q| && q[i] == x
    ensures Remove(q, x) == Without(q, i)
  {
    if i == 0 {
      assert Without(q, 0) == q[1..];
    } else {
      RemoveAt(q[1..], x, i - 1);
      assert Without(q, i) == [q[0]] + Without(q[1..], i - 1);
    }
  }

  lemma {:induction false} RemoveAbsent(q: seq<nat>, x: nat)
    requires x !in q
    ensures Remove(q, x) == q
  {
    if q != [] {
      RemoveAbsent(q[1..], x);
    }
  }

  lemma WithoutMembers(q: seq<nat>, i: nat)
    requires NoDup(q) && i < |q|
    ensures NoDup(Without(q, i))
    ensures forall y: nat :: y in Without(q, i) <==> y in q && y != q[i]
  {
  }

  lemma RemoveMembers(q: seq<nat>, x: nat)
    requires NoDup(q)
    ensures NoDup(Remove(q, x))
    ensures forall y: nat :: y in Remove(q, x) <==> y in q && y != x
    ensures q != [] && q[0] == x ==> Remove(q, x) == q[1..]
    ensures q != [] && q[0] != x ==> Remove(q, x) != [] && Remove(q, x)[0] == q[0]
  {
    if x in q {
      var i :| 0 <= i < |q| && q[i] == x;
      RemoveAt(q, x, i);
      WithoutMembers(q, i);
    } else {
      RemoveAbsent(q, x);
    }
  }

  lemma AppendMembers(q: seq<nat>, x: nat)
    requires NoDup(q) && x !in q
    ensures NoDup(q + [x])
    ensures forall y: nat :: y in q + [x] <==> y in q || y == x
  {
  }

  lemma PrependMembers(q: seq<nat>, x: nat)
    requires NoDup(q) && x !in q
    ensures NoDup([x] + q)
    ensures forall y: nat :: y in [x] + q <==> y in q || y == x
  {
  }

  /** What the element at index i of q links to. */
  function Successor(q: seq<nat>, i: nat): int {
    if i + 1 < |q| then q[i + 1] else NIL
  }

  /** The chain that starts at head and follows next visits exactly the elements of q, in
      order, and then meets NIL. */
  ghost predicate Chain(head: int, next: seq<int>, q: seq<nat>) {
    && head == (if q == [] then NIL else q[0])
    && forall i {:trigger Successor(q, i)} :: 0 <= i < |q| ==> q[i] < |next| && next[q[i]] == Successor(q, i)
  }

  lemma ChainLink(head: int, next: seq<int>, q: seq<nat>, i: nat)
    requires Chain(head, next, q) && i < |q|
    ensures q[i] < |next| && next[q[i]] == Successor(q, i)
  {
  }

  lemma ChainInRange(head: int, next: seq<int>, q: seq<nat>)
    requires Chain(head, next, q)
    ensures forall x: nat :: x in q ==> x < |next|
  {
    forall i | 0 <= i < |q| ensures q[i] < |next| {
      ChainLink(head, next, q, i);
    }
  }

  /** A chain determines the queue it represents. */
  lemma {:induction false} ChainIsUnique(head: int, next: seq<int>, q: seq<nat>, r: seq<nat>)
    requires Chain(head, next, q) && Chain(head, next, r)
    ensures q == r
    decreases |q|
  {
    if q != [] && r != [] {
      ChainTail(head, next, q);
      ChainTail(head, next, r);
      ChainIsUnique(next[q[0]], next, q[1..], r[1..]);
      assert q == [q[0]] + q[1..] && r == [r[0]] + r[1..];
    }
  }

  /** Moving the head along drops the first element. */
  lemma ChainTail(head: int, next: seq<int>, q: seq<nat>)
    requires Chain(head, next, q) && q != []
    ensures q[0] < |next| && Chain(next[q[0]], next, q[1..])
  {
    var t := q[1..];
    ChainLink(head, next, q, 0);
    forall i | 0 <= i < |t| ensures t[i] < |next| && next[t[i]] == Successor(t, i) {
      assert t[i] == q[i + 1] && Successor(t, i) == Successor(q, i + 1);
    }
  }

  /** Linking x behind the last node appends x. */
  lemma ChainAppend(head: int, next: seq<int>, q: seq<nat>, x: nat)
    requires Chain(head, next, q) && NoDup(q) && x !in q && x < |next|
    ensures q == [] ==> Chain(x, next[x := NIL], q + [x])
    ensures q != [] ==> q[|q| - 1] < |next| && Chain(head, next[q[|q| - 1] := x][x := NIL], q + [x])
  {
    if q != [] {
      ChainLink(head, next, q, |q| - 1);
      var m, a := next[q[|q| - 1] := x][x := NIL], q + [x];
      forall i | 0 <= i < |a| ensures a[i] < |m| && m[a[i]] == Successor(a, i) {
        if i < |q| {
          ChainLink(head, next, q, i);
          assert a[i] == q[i];
        }
      }
    }
  }

  lemma ChainPrepend(head: int, next: seq<int>, q: seq<nat>, x: nat)
    requires Chain(head, next, q) && x !in q && x < |next|
    ensures Chain(x, next[x := head], [x] + q)
  {
    var m, a := next[x := head], [x] + q;
    forall i | 0 <= i < |a| ensures a[i] < |m| && m[a[i]] == Successor(a, i) {
      if i > 0 {
        assert a[i] == q[i - 1] && Successor(a, i) == Successor(q, i - 1);
      }
    }
  }

  /** Making the predecessor of q[i] skip it unlinks it. */
  lemma ChainUnlink(head: int, next: seq<int>, q: seq<nat>, i: nat)
    requires Chain(head, next, q) && NoDup(q) && 0 < i < |q|
    ensures q[i - 1] < |next| && q[i] < |next|
    ensures Chain(head, next[q[i - 1] := next[q[i]]], Without(q, i))
  {
    ChainLink(head, next, q, i);
    ChainLink(head, next, q, i - 1);
    var m, w := next[q[i - 1] := next[q[i]]], Without(q, i);
    forall k | 0 <= k < |w| ensures w[k] < |m| && m[w[k]] == Successor(w, k) {
      if k < i - 1 {
        assert w[k] == q[k] && Successor(w, k) == Successor(q, k);
      } else if k == i - 1 {
        assert w[k] == q[k] && Successor(w, k) == Successor(q, i);
      } else {
        assert w[k] == q[k + 1] && Successor(w, k) == Successor(q, k + 1);
      }
    }
  }

  lemma ChainFrame(head: int, next: seq<int>, next': seq<int>, q: seq<nat>)
    requires Chain(head, next, q) && |next'| == |next|
    requires forall x: nat :: x in q ==> x < |next| && next'[x] == next[x]
    ensures Chain(head, next', q)
  {
    forall i | 0 <= i < |q| ensures q[i] < |next'| && next'[q[i]] == Successor(q, i) {
      assert q[i] in q;
    }
  }
}
