/** The ready queue of a tuning session: a ring of slot numbers in which -1
    marks an empty cell, a head where trials are fetched, and a tail where
    trials are appended.  This module relates the raw cells to the abstract
    queue they hold. */
module Ring {

  /** The cell that holds the `q`-th element counted from `head`. */
  function Cell(head: nat, q: nat, cap: nat): nat
    requires head < cap && q <= cap
  {
    if head + q < cap then head + q else head + q - cap
  }

  /** `ring` holds exactly `queue`: the cells from `head` on carry its elements
      in order, every other cell is -1, and `tail` is the next cell to fill. */
  ghost predicate Holds(ring: seq<int>, head: nat, tail: nat, queue: seq<nat>) {
    && head < |ring|
    && |queue| <= |ring|
    && tail == Cell(head, |queue|, |ring|)
    && (forall q :: 0 <= q < |queue| ==> ring[Cell(head, q, |ring|)] == queue[q])
    && (forall q :: |queue| <= q < |ring| ==> ring[Cell(head, q, |ring|)] == -1)
  }

  /** Every cell is reached by exactly one offset from the head. */
  lemma CellOffset(head: nat, c: nat, cap: nat) returns (q: nat)
    requires head < cap && c < cap
    ensures q < cap && Cell(head, q, cap) == c
  {
    q := if head <= c then c - head else c + cap - head;
  }

  /** The entries other than -1 are the cells from the head, for the length of
      the queue, and no others. */
  lemma OccupiedCells(ring: seq<int>, head: nat, tail: nat, queue: seq<nat>, c: nat)
    requires Holds(ring, head, tail, queue) && c < |ring|
    ensures ring[c] != -1 <==> exists q :: 0 <= q < |queue| && Cell(head, q, |ring|) == c
  {
    var q := CellOffset(head, c, |ring|);
    if q >= |queue| {
      assert ring[Cell(head, q, |ring|)] == -1;
    }
  }

  lemma PushHolds(ring: seq<int>, head: nat, tail: nat, queue: seq<nat>, x: nat)
    requires Holds(ring, head, tail, queue) && |queue| < |ring|
    ensures tail < |ring| && ring[tail] == -1
    ensures Holds(ring[tail := x], head, (tail + 1) % |ring|, queue + [x])
  {
    var cap := |ring|;
    assert ring[Cell(head, |queue|, cap)] == -1;
    assert (tail + 1) % cap == Cell(head, |queue| + 1, cap) by {
      if tail + 1 < cap { Small(tail + 1, cap); } else { Whole(cap); }
    }
  }

  lemma PopHolds(ring: seq<int>, head: nat, tail: nat, queue: seq<nat>)
    requires Holds(ring, head, tail, queue) && queue != []
    ensures ring[head] == queue[0]
    ensures Holds(ring[head := -1], (head + 1) % |ring|, tail, queue[1..])
  {
    var cap := |ring|;
    assert Cell(head, 0, cap) == head;
    var head' := (head + 1) % cap;
    assert head' == if head + 1 < cap then head + 1 else 0 by {
      if head + 1 < cap { Small(head + 1, cap); } else { Whole(cap); }
    }
    var ring' := ring[head := -1];
    forall q | 0 <= q < |queue| - 1
      ensures ring'[Cell(head', q, cap)] == queue[1..][q]
    {
      assert Cell(head', q, cap) == Cell(head, q + 1, cap) != head;
    }
    forall q | |queue| - 1 <= q < cap
      ensures ring'[Cell(head', q, cap)] == -1
    {
      assert Cell(head', q, cap) == if q + 1 == cap then head else Cell(head, q + 1, cap);
    }
  }

  lemma Small(x: nat, cap: nat)
    requires x < cap
    ensures x % cap == x
  {}

  lemma Whole(cap: nat)
    requires 0 < cap
    ensures cap % cap == 0
  {}

  /** The cell at the head is -1 exactly when the queue is empty, which is how
      a fetch decides between sending a trial and sending the best point. */
  lemma HeadCell(ring: seq<int>, head: nat, tail: nat, queue: seq<nat>)
    requires Holds(ring, head, tail, queue)
    ensures ring[head] >= 0 <==> queue != []
    ensures ring[head] != -1 <==> queue != []
    ensures queue != [] ==> ring[head] == queue[0]
  {
    assert Cell(head, 0, |ring|) == head;
    assert queue == [] ==> ring[Cell(head, 0, |ring|)] == -1;
  }

  // ---- Reversal and rotation -------------------------------------------

  /** The half-open stretch lo..hi reversed, the rest in place. */
  function ReverseStretch<T>(s: seq<T>, lo: nat, hi: nat): (r: seq<T>)
    requires lo <= hi <= |s|
    ensures |r| == |s|
  {
    seq(|s|, k requires 0 <= k < |s| => if lo <= k < hi then s[lo + hi - 1 - k] else s[k])
  }

  /** Growing the lists turns the ring by three reversals: all of it, the first
      cap - head cells, and the remaining head cells. */
  function ThreeReversals<T>(s: seq<T>, head: nat): (r: seq<T>)
    requires head <= |s|
    ensures |r| == |s|
  {
    var i := |s| - head;
    ReverseStretch(ReverseStretch(ReverseStretch(s, 0, |s|), 0, i), i, |s|)
  }

  /** The three reversals are a left rotation by `head`, for every array. */
  lemma ThreeReversalsRotate<T>(s: seq<T>, head: nat)
    requires head <= |s|
    ensures ThreeReversals(s, head) == s[head..] + s[..head]
  {
    var n, i := |s|, |s| - head;
    var a := ReverseStretch(s, 0, n);
    var b := ReverseStretch(a, 0, i);
    var c := ReverseStretch(b, i, n);
    assert forall k :: 0 <= k < i ==> b[k] == s[head + k];
    assert forall k :: i <= k < n ==> c[k] == b[i + n - 1 - k] == s[k - i];
    assert c == s[head..] + s[..head];
  }

  // ---- Growth ------------------------------------------------------------

  /** The condition under which growing the lists turns the ring. */
  predicate Wrapped(ring: seq<int>, head: nat, tail: nat)
    requires head < |ring|
  {
    tail <= head && ring[head] != -1
  }

  /** `count` empty cells. */
  function Blank(count: nat): (r: seq<int>)
    ensures |r| == count && forall k :: 0 <= k < count ==> r[k] == -1
  {
    seq(count, _ => -1)
  }

  /** The cells after the turn that growth begins with. */
  function TurnedCells(ring: seq<int>, head: nat, tail: nat): (r: seq<int>)
    requires head < |ring|
    ensures |r| == |ring|
  {
    if Wrapped(ring, head, tail) then ThreeReversals(ring, head) else ring
  }

  /** The cells after growth by `extra`. */
  function GrownCells(ring: seq<int>, head: nat, tail: nat, extra: nat): seq<int>
    requires head < |ring|
  {
    TurnedCells(ring, head, tail) + Blank(extra)
  }

  function GrownHead(ring: seq<int>, head: nat, tail: nat): nat
    requires head < |ring|
  {
    if Wrapped(ring, head, tail) then 0 else head
  }

  /** The tail as the program computes it: the head is set to zero before the
      new tail is derived from it, so the old head does not take part. */
  function GrownTail(ring: seq<int>, head: nat, tail: nat): nat
    requires head < |ring| && tail <= |ring|
  {
    if Wrapped(ring, head, tail) then |ring| - tail + GrownHead(ring, head, tail) else tail
  }

  /** The tail the rotation calls for. */
  function RotatedTail(ring: seq<int>, head: nat, tail: nat): int
    requires head < |ring|
  {
    if Wrapped(ring, head, tail) then |ring| - head + tail else tail
  }

  /** When growth keeps the tail right. */
  predicate GrowthAligned(ring: seq<int>, head: nat, tail: nat)
    requires head < |ring|
  {
    Wrapped(ring, head, tail) ==> head == 2 * tail
  }

  lemma WrappedLength(ring: seq<int>, head: nat, tail: nat, queue: seq<nat>)
    requires Holds(ring, head, tail, queue) && Wrapped(ring, head, tail)
    ensures |queue| == |ring| - head + tail
  {
    HeadCell(ring, head, tail, queue);
  }

  lemma TurnKeepsQueue(ring: seq<int>, head: nat, tail: nat, queue: seq<nat>, turned: seq<int>, extra: nat)
    requires Holds(ring, head, tail, queue) && 0 < extra && Wrapped(ring, head, tail)
    requires turned == ring[head..] + ring[..head]
    ensures Holds(turned + Blank(extra), 0, |queue|, queue)
  {
    var n := |ring|;
    forall q | 0 <= q < n
      ensures turned[q] == ring[Cell(head, q, n)]
    {}
  }

  lemma PadKeepsQueue(ring: seq<int>, head: nat, tail: nat, queue: seq<nat>, extra: nat)
    requires Holds(ring, head, tail, queue) && 0 < extra && !Wrapped(ring, head, tail)
    ensures Holds(ring + Blank(extra), head, tail, queue)
  {
    var n := |ring|;
    UnwrappedQueue(ring, head, tail, queue);
    var grown := ring + Blank(extra);
    forall q | 0 <= q < |queue|
      ensures grown[Cell(head, q, n + extra)] == queue[q]
    {
      assert Cell(head, q, n + extra) == Cell(head, q, n);
    }
    forall q {:trigger Cell(head, q, n + extra)} | |queue| <= q < n + extra
      ensures grown[Cell(head, q, n + extra)] == -1
    {
      var c := Cell(head, q, n + extra);
      if c < n {
        var p := CellOffset(head, c, n);
        assert ring[Cell(head, p, n)] == -1;
      }
    }
  }

  /** With the rotated tail the abstract queue is untouched by growth. */
  lemma RotationKeepsQueue(ring: seq<int>, head: nat, tail: nat, queue: seq<nat>, extra: nat)
    requires Holds(ring, head, tail, queue) && 0 < extra
    ensures RotatedTail(ring, head, tail) >= 0
    ensures Holds(GrownCells(ring, head, tail, extra), GrownHead(ring, head, tail),
                  RotatedTail(ring, head, tail), queue)
  {
    if Wrapped(ring, head, tail) {
      WrappedLength(ring, head, tail, queue);
      ThreeReversalsRotate(ring, head);
      TurnKeepsQueue(ring, head, tail, queue, ThreeReversals(ring, head), extra);
      hide Holds, ThreeReversals, Blank;
    } else {
      PadKeepsQueue(ring, head, tail, queue, extra);
      hide Holds, ThreeReversals, Blank;
    }
  }

  lemma UnwrappedQueue(ring: seq<int>, head: nat, tail: nat, queue: seq<nat>)
    requires Holds(ring, head, tail, queue) && !Wrapped(ring, head, tail)
    ensures head + |queue| == tail < |ring|
  {
    HeadCell(ring, head, tail, queue);
    if queue != [] {
      assert head < tail;
    }
  }

  /** The tail as computed keeps the cells meaningful exactly when the ring was
      not wrapped or its head was twice its tail; otherwise the grown ring holds
      no queue at all, whatever one takes its contents to be. */
  lemma GrowthHoldsIff(ring: seq<int>, head: nat, tail: nat, queue: seq<nat>, extra: nat)
    requires Holds(ring, head, tail, queue) && 0 < extra
    ensures GrowthAligned(ring, head, tail) <==>
            exists q' :: Holds(GrownCells(ring, head, tail, extra), GrownHead(ring, head, tail),
                               GrownTail(ring, head, tail), q')
    ensures GrowthAligned(ring, head, tail) ==>
            Holds(GrownCells(ring, head, tail, extra), GrownHead(ring, head, tail),
                  GrownTail(ring, head, tail), queue)
  {
    RotationKeepsQueue(ring, head, tail, queue, extra);
    if Wrapped(ring, head, tail) {
      WrappedLength(ring, head, tail, queue);
    }
    if GrowthAligned(ring, head, tail) {
      assert Holds(GrownCells(ring, head, tail, extra), GrownHead(ring, head, tail),
                   GrownTail(ring, head, tail), queue);
    }
    forall q' | Holds(GrownCells(ring, head, tail, extra), GrownHead(ring, head, tail),
                      GrownTail(ring, head, tail), q')
      ensures GrowthAligned(ring, head, tail)
    {
      HoldingMeansAligned(ring, head, tail, queue, extra, q');
    }
  }

  lemma HoldingMeansAligned(ring: seq<int>, head: nat, tail: nat, queue: seq<nat>, extra: nat, other: seq<nat>)
    requires Holds(ring, head, tail, queue) && 0 < extra
    requires Holds(GrownCells(ring, head, tail, extra), GrownHead(ring, head, tail),
                   GrownTail(ring, head, tail), other)
    ensures GrowthAligned(ring, head, tail)
  {
    RotationKeepsQueue(ring, head, tail, queue, extra);
    if Wrapped(ring, head, tail) {
      TailFixed(GrownCells(ring, head, tail, extra), RotatedTail(ring, head, tail), queue,
                GrownTail(ring, head, tail), other);
    }
  }

  /** The same for the queue held before: it is held after growth exactly when
      the growth is aligned. */
  lemma GrowthKeepsQueueIff(ring: seq<int>, head: nat, tail: nat, queue: seq<nat>, extra: nat)
    requires Holds(ring, head, tail, queue) && 0 < extra
    ensures GrowthAligned(ring, head, tail) <==>
            Holds(GrownCells(ring, head, tail, extra), GrownHead(ring, head, tail),
                  GrownTail(ring, head, tail), queue)
  {
    GrowthHoldsIff(ring, head, tail, queue, extra);
  }

  /** In a ring whose head is 0 the cells in front of the tail are the occupied ones. */
  lemma FrontCells(ring: seq<int>, tail: nat, queue: seq<nat>)
    requires Holds(ring, 0, tail, queue)
    ensures forall k :: 0 <= k < |ring| ==> (ring[k] != -1 <==> k < |queue|)
  {
    forall k | 0 <= k < |ring|
      ensures ring[k] != -1 <==> k < |queue|
    {
      assert Cell(0, k, |ring|) == k;
    }
  }

  /** From head 0 the cells alone determine the tail. */
  lemma TailFixed(ring: seq<int>, t0: nat, q0: seq<nat>, t1: nat, q1: seq<nat>)
    requires Holds(ring, 0, t0, q0) && Holds(ring, 0, t1, q1)
    ensures t0 == t1
  {
    FrontCells(ring, t0, q0);
    FrontCells(ring, t1, q1);
    var m := if |q0| < |q1| then |q0| else |q1|;
    assert m < |ring| ==> (ring[m] != -1 <==> m < |q0|);
  }
}
