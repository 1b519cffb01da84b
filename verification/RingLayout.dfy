/** How the circular slot array holds a queue, and what one memory update of the
    put, of the FIFO get and of the SFF compaction does to the queue it holds. */
module RingLayout {
  import opened Requests

  /** x % cap for 0 <= x < 2 * cap. */
  function Wrap(cap: int, x: int): (r: int)
    requires 0 <= x < 2 * cap
    ensures 0 <= r < cap
  {
    if x < cap then x else x - cap
  }

  lemma WrapIsMod(cap: int, x: int)
    requires 0 <= x < 2 * cap
    ensures x % cap == Wrap(cap, x)
  {
    if x >= cap {
      assert x == cap + (x - cap);
      assert x / cap == 1;
    }
  }

  predicate Shape(slots: seq<Request>, head: int, count: int) {
    0 <= head < |slots| && 0 <= count <= |slots|
  }

  /** The entries from head on, oldest first. */
  function Live(slots: seq<Request>, head: int, count: int): (q: seq<Request>)
    requires Shape(slots, head, count)
    ensures |q| == count
    ensures forall k :: 0 <= k < count ==> q[k] == slots[Wrap(|slots|, head + k)]
  {
    seq(count, k requires 0 <= k < count => slots[Wrap(|slots|, head + k)])
  }

  lemma StoreAppends(slots: seq<Request>, head: int, count: int, req: Request)
    requires Shape(slots, head, count) && count < |slots|
    ensures Live(slots[Wrap(|slots|, head + count) := req], head, count + 1) == Live(slots, head, count) + [req]
  {
  }

  lemma AdvanceDropsOldest(slots: seq<Request>, head: int, count: int)
    requires Shape(slots, head, count) && count > 0
    ensures Live(slots, Wrap(|slots|, head + 1), count - 1) == Without(Live(slots, head, count), 0)
  {
  }

  /** The compaction has reached logical slot j on its way from slot m: what is
      before j is already the queue without entry m, what is after j is still
      the old queue, and slot j itself is free to be overwritten. */
  ghost predicate Holed(slots: seq<Request>, head: int, q: seq<Request>, m: int, j: int) {
    && Shape(slots, head, |q|)
    && 0 <= m <= j < |q|
    && (forall k :: 0 <= k < j ==> slots[Wrap(|slots|, head + k)] == Without(q, m)[k])
    && (forall k :: j < k < |q| ==> slots[Wrap(|slots|, head + k)] == q[k])
  }

  /** The state of the compaction loop: cur is the free slot, next the one after. */
  ghost predicate Shifting(slots: seq<Request>, head: int, q: seq<Request>, m: int, j: int, cur: int, next: int) {
    && Holed(slots, head, q, m, j)
    && cur == Wrap(|slots|, head + j)
    && next == Wrap(|slots|, head + j + 1)
  }

  /** The slot after the one that holds logical entry j. */
  lemma NextSlot(cap: int, head: int, j: int)
    requires 0 <= head < cap && 0 <= j < cap
    ensures (Wrap(cap, head + j) + 1) % cap == Wrap(cap, head + j + 1)
  {
    WrapIsMod(cap, Wrap(cap, head + j) + 1);
  }

  lemma ShiftStarts(slots: seq<Request>, head: int, count: int, m: int)
    requires Shape(slots, head, count) && 0 <= m < count
    ensures var cur := (head + m) % |slots|;
            && cur == Wrap(|slots|, head + m)
            && Shifting(slots, head, Live(slots, head, count), m, m, cur, (cur + 1) % |slots|)
  {
    WrapIsMod(|slots|, head + m);
    NextSlot(|slots|, head, m);
  }

  /** While next is not tail there is an entry to move, and moving it moves the
      free slot one further. */
  lemma ShiftMoves(slots: seq<Request>, head: int, q: seq<Request>, m: int, j: int, cur: int, next: int)
    requires Shifting(slots, head, q, m, j, cur, next) && next != Wrap(|slots|, head + |q|)
    ensures j + 1 < |q|
    ensures Shifting(slots[cur := slots[next]], head, q, m, j + 1, next, (next + 1) % |slots|)
  {
    NextSlot(|slots|, head, j + 1);
  }

  /** When next meets tail the gap is closed; this is right even in a full
      buffer, where tail and head are the same slot. */
  lemma ShiftEnds(slots: seq<Request>, head: int, q: seq<Request>, m: int, j: int, cur: int, next: int)
    requires Shifting(slots, head, q, m, j, cur, next) && next == Wrap(|slots|, head + |q|)
    ensures j + 1 == |q|
    ensures Live(slots, head, |q| - 1) == Without(q, m)
    ensures (next - 1 + |slots|) % |slots| == Wrap(|slots|, head + |q| - 1)
  {
    Retract(|slots|, head, |q|);
  }

  /** Retracting tail by one slot. */
  lemma Retract(cap: int, head: int, count: int)
    requires 0 <= head < cap && 0 < count <= cap
    ensures (Wrap(cap, head + count) - 1 + cap) % cap == Wrap(cap, head + count - 1)
  {
    WrapIsMod(cap, Wrap(cap, head + count) - 1 + cap);
  }
}
