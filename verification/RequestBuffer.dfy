/** The shared request buffer as the threads see it while they hold the mutex.
    Waiting is the business of ServerModel: here a put into a full buffer and a
    get from an empty one leave everything alone and say so. */
module RequestBuffer {
  import opened Requests
  import opened BoundedQueue
  import opened RingLayout

  class Buffer {
    var slots: array<Request>
    var cap: int
    var count: int
    var head: int
    var tail: int
    var sched: Policy
    /** The puts and gets so far. */
    ghost var log: seq<Event>

    ghost predicate Valid()
      reads this, slots
    {
      && 0 < cap == slots.Length
      && Shape(slots[..], head, count)
      && tail == Wrap(cap, head + count)
    }

    ghost function Contents(): seq<Request>
      reads this, slots
      requires Valid()
    {
      Live(slots[..], head, count)
    }

    /** The buffer is where its puts and gets since buffer_init have brought it;
        under SFF no operation has moved head. */
    ghost predicate Traced()
      reads this, slots
      requires Valid()
    {
      && Replay(sched, cap, [], log) == Some(Contents())
      && (sched.Sff? ==> head == 0)
    }

    /** buffer_init. */
    constructor (capacity: int, policy: Policy)
      requires capacity > 0
      ensures Valid() && fresh(slots) && cap == capacity && sched == policy
      ensures Contents() == [] && log == [] && Traced()
    {
      cap := capacity;
      sched := policy;
      count := 0;
      head := 0;
      tail := 0;
      slots := new Request[capacity];
      log := [];
    }

    /** One pass of buffer_put through its critical section: stored is false when
        the caller has to wait on not_full. */
    method Put(req: Request) returns (stored: bool)
      requires Valid()
      modifies this, slots
      ensures Valid() && slots == old(slots) && cap == old(cap) && sched == old(sched)
      ensures stored <==> |old(Contents())| < cap
      ensures stored ==> Contents() == old(Contents()) + [req] && log == old(log) + [Event.Put(req)]
      ensures !stored ==> Contents() == old(Contents()) && log == old(log)
      ensures head == old(head)
      ensures old(Traced()) ==> Traced()
    {
      if count == cap {
        return false;
      }
      ghost var before, q := slots[..], Contents();
      slots[tail] := req;
      WrapIsMod(cap, tail + 1);
      tail := (tail + 1) % cap;
      count := count + 1;
      assert slots[..] == before[Wrap(cap, head + count - 1) := req];
      StoreAppends(before, head, count - 1, req);
      if Replay(sched, cap, [], log) == Some(q) {
        ReplayAppend(sched, cap, [], log, Event.Put(req));
      }
      log := log + [Event.Put(req)];
      return true;
    }

    /** One pass of buffer_get through its critical section: None when the caller
        has to wait on not_empty. */
    method Get() returns (got: Option<Request>)
      requires Valid()
      modifies this, slots
      ensures Valid() && slots == old(slots) && cap == old(cap) && sched == old(sched)
      ensures got.None? <==> old(Contents()) == []
      ensures got.None? ==> Contents() == [] && log == old(log)
      ensures got.Some? ==>
                var m := Chosen(sched, old(Contents()));
                && got.value == old(Contents())[m]
                && Contents() == Without(old(Contents()), m)
                && log == old(log) + [Got(got.value)]
      ensures sched.Sff? ==> head == old(head)
      ensures old(Traced()) ==> Traced()
    {
      if count == 0 {
        return None;
      }
      ghost var q := Contents();
      var req: Request;
      if sched.Fifo? {
        req := TakeOldest();
      } else {
        req := TakeSmallest();
      }
      count := count - 1;
      if Replay(sched, cap, [], log) == Some(q) {
        ReplayAppend(sched, cap, [], log, Got(req));
      }
      log := log + [Got(req)];
      return Some(req);
    }

    /** The FIFO branch of buffer_get, up to the count update. */
    method TakeOldest() returns (req: Request)
      requires Valid() && count > 0
      modifies this`head
      ensures req == old(Contents())[0]
      ensures Shape(slots[..], head, count - 1)
      ensures Live(slots[..], head, count - 1) == Without(old(Contents()), 0)
      ensures tail == Wrap(cap, head + count - 1)
    {
      req := slots[head];
      AdvanceDropsOldest(slots[..], head, count);
      WrapIsMod(cap, head + 1);
      head := (head + 1) % cap;
    }

    /** The SFF branch of buffer_get, up to the count update. */
    method TakeSmallest() returns (req: Request)
      requires Valid() && count > 0
      modifies this`tail, slots
      ensures var m := LeftmostMin(old(Contents()));
              && req == old(Contents())[m]
              && Shape(slots[..], head, count - 1)
              && Live(slots[..], head, count - 1) == Without(old(Contents()), m)
      ensures tail == Wrap(cap, head + count - 1)
    {
      var minLogical := FindSmallest();
      WrapIsMod(cap, head + minLogical);
      var minPhys := (head + minLogical) % cap;
      req := slots[minPhys];
      Compact(minLogical);
    }

    /** The SFF scan over the live entries. */
    method FindSmallest() returns (minLogical: int)
      requires Valid() && count > 0
      ensures IsLeftmostMin(Contents(), minLogical)
      ensures minLogical == LeftmostMin(Contents())
    {
      ghost var q := Contents();
      minLogical := 0;
      var minSize := slots[head].filesize;
      for i := 1 to count
        invariant IsLeftmostMin(q[..i], minLogical)
        invariant minSize == q[minLogical].filesize
      {
        WrapIsMod(cap, head + i);
        var idx := (head + i) % cap;
        assert slots[idx] == q[i];
        if slots[idx].filesize < minSize {
          minSize := slots[idx].filesize;
          minLogical := i;
        }
      }
      assert q[..count] == q;
      LeftmostMinUnique(q, minLogical);
    }

    /** The SFF compaction: closes the gap left by entry minLogical and retracts
        tail. The caller still has to lower count. */
    method Compact(minLogical: int)
      requires Valid() && 0 <= minLogical < count
      modifies this`tail, slots
      ensures Shape(slots[..], head, count - 1)
      ensures Live(slots[..], head, count - 1) == Without(old(Contents()), minLogical)
      ensures tail == Wrap(cap, head + count - 1)
    {
      ghost var q := Contents();
      ghost var j := minLogical;
      var cur := (head + minLogical) % cap;
      var next := (cur + 1) % cap;
      ShiftStarts(slots[..], head, count, minLogical);
      while next != tail
        invariant tail == Wrap(cap, head + count)
        invariant Shifting(slots[..], head, q, minLogical, j, cur, next)
        decreases count - j
      {
        ghost var before := slots[..];
        ShiftMoves(before, head, q, minLogical, j, cur, next);
        slots[cur] := slots[next];
        assert slots[..] == before[cur := before[next]];
        cur := next;
        next := (next + 1) % cap;
        j := j + 1;
      }
      ShiftEnds(slots[..], head, q, minLogical, j, cur, next);
      tail := (tail - 1 + cap) % cap;
    }

    /** In every SFF run from buffer_init the live entries are the first count
        slots, in arrival order, and tail follows them. */
    lemma SffLayout()
      requires Valid() && Traced() && sched.Sff?
      ensures head == 0 && slots[..count] == Contents() && tail == count % cap
    {
      WrapIsMod(cap, count);
      assert forall k :: 0 <= k < count ==> slots[..count][k] == Contents()[k];
    }
  }
}
