/** The list of soi4/messagebuffer.cpp as a value, with its lagging tail pointer: what pop, push
    and push_pri do to it in every state they can leave it in. */
module PriorityBuffer {

  /** From head on come the priority messages `pri`, then the ordinary ones `ord`.  push_pri does
      not move tail: `behind` is the number of messages after it.  A push through such a tail cuts
      those off; pri_tail then stays `detached` in the part cut off, and what push_pri inserts
      there is `lost` as well, though still counted in buffer_occupancy. */
  datatype Layout<T> = Layout(pri: seq<T>, ord: seq<T>, behind: nat, detached: bool, lost: nat)
  {
    function List(): seq<T> {
      pri + ord
    }

    /** buffer_occupancy */
    function Count(): nat {
      |pri| + |ord| + lost
    }

    /** The message tail points to has been taken and freed. */
    predicate TailGone() {
      List() != [] && behind >= |List()|
    }

    /** tail lags only behind priority messages that pri_tail is the last of, and pri_tail is cut
        off only together with messages. */
    predicate Ok() {
      && (List() != [] && behind > 0 ==> ord == [] && !detached)
      && (detached ==> lost > 0)
    }
  }

  type Buffer<T> = b: Layout<T> | b.Ok() witness Layout([], [], 0, false, 0)

  function Empty<T>(): Buffer<T> {
    Layout([], [], 0, false, 0)
  }

  function Oldest<T>(b: Buffer<T>): T
    requires b.List() != []
  {
    if b.pri != [] then b.pri[0] else b.ord[0]
  }

  function Popped<T>(b: Buffer<T>): Buffer<T>
    requires b.List() != []
  {
    if b.pri != [] then b.(pri := b.pri[1..]) else b.(ord := b.ord[1..])
  }

  /** m goes behind tail, and what was there is cut off. */
  function Pushed<T>(b: Buffer<T>, m: T): Buffer<T>
    requires !b.TailGone()
  {
    if b.List() == [] then b.(ord := [m], behind := 0, detached := false)
    else if b.behind == 0 then b.(ord := b.ord + [m])
    else Layout(b.pri[..|b.pri| - b.behind], [m], 0, true, b.lost + b.behind)
  }

  /** m goes behind pri_tail, wherever that is. */
  function PushedPri<T>(b: Buffer<T>, m: T): Buffer<T> {
    if b.List() == [] then b.(pri := [m], behind := 0, detached := false)
    else if b.detached then b.(lost := b.lost + 1)
    else b.(pri := b.pri + [m], behind := if b.ord == [] then b.behind + 1 else 0)
  }

  // ------------------------------------------------------------ what is lost

  /** Taking a message takes the first of the list. */
  lemma PopTakesFirst<T>(b: Buffer<T>)
    requires b.List() != []
    ensures [Oldest(b)] + Popped(b).List() == b.List() && Popped(b).lost == b.lost
  {
  }

  /** A push puts its message behind tail, and exactly what was there is lost. */
  lemma PushLosesExactly<T>(b: Buffer<T>, m: T)
    requires !b.TailGone()
    ensures var b' := Pushed(b, m);
      && b'.List() == (if b.List() == [] then [] else b.List()[..|b.List()| - b.behind]) + [m]
      && b'.lost == b.lost + (if b.List() == [] then 0 else b.behind)
      && b'.Count() == b.Count() + 1
  {
  }

  /** push_pri inserts its message, behind the priority ones and before the ordinary ones, unless
      a push has cut pri_tail off and the buffer has not been empty since. */
  lemma PushPriLosesIff<T>(b: Buffer<T>, m: T)
    ensures var b' := PushedPri(b, m);
      && (if b.List() != [] && b.detached then b'.List() == b.List()
          else b'.List() == b.pri + [m] + b.ord && b'.lost == b.lost)
      && (b'.lost > b.lost <==> b.List() != [] && b.detached)
      && b'.Count() == b.Count() + 1
  {
  }

  lemma PushPriByClass<T>(b: Buffer<T>, m: T)
    ensures var b' := PushedPri(b, m);
      && b'.ord == b.ord
      && if b.List() != [] && b.detached then b'.pri == b.pri && b'.lost == b.lost + 1
         else b'.pri == b.pri + [m] && b'.lost == b.lost
  {
  }

  function PushedAll<T>(b: Buffer<T>, ms: seq<T>): Buffer<T>
    decreases |ms|
  {
    if ms == [] then b else PushedPri(PushedAll(b, ms[..|ms| - 1]), ms[|ms| - 1])
  }

  /** Priority messages into a buffer that is not empty, one after the other: while there is an
      ordinary message tail stays right, otherwise it falls behind by all of them. */
  lemma {:induction false} TailFallsBehind<T>(b: Buffer<T>, ms: seq<T>)
    requires b.List() != [] && !b.detached
    ensures PushedAll(b, ms) == b.(pri := b.pri + ms, behind := if b.ord == [] then b.behind + |ms| else 0)
    decreases |ms|
  {
    if ms != [] {
      TailFallsBehind(b, ms[..|ms| - 1]);
      assert b.pri + ms == (b.pri + ms[..|ms| - 1]) + [ms[|ms| - 1]];
    }
  }

  /** An ordinary message after priority ones: any number of them into any buffer that is not
      empty, with tail still in the list.  If there is an ordinary message none is lost; otherwise
      all those after tail are, the new ones included. */
  lemma PushAfterPriorities<T>(b: Buffer<T>, ms: seq<T>, m: T)
    requires b.List() != [] && !b.detached && !b.TailGone()
    ensures !PushedAll(b, ms).TailGone()
    ensures var b' := Pushed(PushedAll(b, ms), m);
      if b.ord != [] then b'.List() == b.pri + ms + b.ord + [m] && b'.lost == b.lost
      else b'.List() == b.pri[..|b.pri| - b.behind] + [m] && b'.lost == b.lost + b.behind + |ms|
  {
    hide Pushed;
    TailFallsBehind(b, ms);
    var b1, k := PushedAll(b, ms), |b.pri| - b.behind;
    PushLosesExactly(b1, m);
    if b.ord == [] {
      assert b1.List() == b.pri + ms && b1.List()[..k] == b.pri[..k];
    }
  }

  // ------------------------------------------------------------ subsequences

  /** a is b with some elements left out. */
  predicate Sub<T(==)>(a: seq<T>, b: seq<T>)
    decreases |b|
  {
    || a == []
    || (b != [] && (|| (a[|a| - 1] == b[|b| - 1] && Sub(a[..|a| - 1], b[..|b| - 1]))
                    || Sub(a, b[..|b| - 1])))
  }

  lemma SubAppend<T>(a: seq<T>, b: seq<T>, m: T)
    requires Sub(a, b)
    ensures Sub(a + [m], b + [m]) && Sub(a, b + [m])
  {
    assert (a + [m])[..|a|] == a && (b + [m])[..|b|] == b;
  }

  lemma {:induction false} SubShorter<T>(a: seq<T>, b: seq<T>)
    requires a != [] && Sub(a, b)
    ensures Sub(a[..|a| - 1], b)
    decreases |b|
  {
    var b', a' := b[..|b| - 1], a[..|a| - 1];
    assert b == b' + [b[|b| - 1]];
    if a[|a| - 1] == b[|b| - 1] && Sub(a', b') {
      SubAppend(a', b', b[|b| - 1]);
    } else {
      SubShorter(a, b');
      SubAppend(a', b', b[|b| - 1]);
    }
  }

  lemma {:induction false} SubPrefix<T>(a: seq<T>, b: seq<T>, k: nat)
    requires Sub(a, b) && k <= |a|
    ensures Sub(a[..k], b)
    decreases |a|
  {
    if k < |a| {
      SubShorter(a, b);
      assert a[..|a| - 1][..k] == a[..k];
      SubPrefix(a[..|a| - 1], b, k);
    } else {
      assert a[..k] == a;
    }
  }

  /** A subsequence is never longer, and as long only if nothing is left out. */
  lemma {:induction false} SubLength<T>(a: seq<T>, b: seq<T>)
    requires Sub(a, b)
    ensures |a| <= |b| && (|a| == |b| ==> a == b)
    decreases |b|
  {
    if a != [] {
      var b', a' := b[..|b| - 1], a[..|a| - 1];
      if a[|a| - 1] == b[|b| - 1] && Sub(a', b') {
        SubLength(a', b');
        assert a == a' + [a[|a| - 1]] && b == b' + [b[|b| - 1]];
      } else {
        SubLength(a, b');
      }
    }
  }
}
