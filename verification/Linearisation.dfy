/** Mutual exclusion, and what it buys: although threads read and write the ring
    one slot and one index at a time, the completed puts and gets form a run of
    the abstract bounded queue, in mutex order. */
module Linearisation {
  import opened Requests
  import opened BoundedQueue
  import opened RingLayout
  import opened Descriptors
  import opened ServerModel

  // ---- Mutual exclusion ----

  /** The mutex is held by exactly the thread that is in its critical section, and
      acceptors and workers keep to their own code. */
  ghost predicate LockInv(c: Config, s: State) {
    && |s.threads| == c.acceptors + c.workers
    && (s.mutex.Some? ==> s.mutex.value < |s.threads|)
    && (forall t :: 0 <= t < |s.threads| ==> (s.threads[t].InCritical() <==> s.mutex == Some(t)))
    && (forall t :: 0 <= t < |s.threads| ==> (s.threads[t].OfAcceptor() <==> t < c.acceptors))
  }

  lemma LockInvAfter(c: Config, s: State, t: nat, e: Effect)
    requires LockInv(c, s) && t < |s.threads| && RespectsTheLock(s, t, e)
    ensures LockInv(c, After(s, t, e))
  {
  }

  lemma LockInvSignal(c: Config, s: State, t: nat, wakee: nat)
    requires LockInv(c, s) && t < |s.threads| && wakee < |s.threads| && Hears(s.threads[t], s.threads[wakee])
    ensures LockInv(c, s.(threads := s.threads[t := Signalled(s.threads[t])][wakee := Woken(s.threads[wakee])]))
  {
  }

  lemma LockInvStep(c: Config, s: State, step: Step)
    requires c.cap >= 1 && LockInv(c, s) && Take(c, s, step).Some?
    ensures LockInv(c, Take(c, s, step).value)
  {
    var t := step.t;
    match step
    case Act(_) =>
      MoveRespectsTheLock(c, s, t);
      LockInvAfter(c, s, t, Move(c, s, t).value);
    case Accept(_, fd, conn) =>
      LockInvAfter(c, s, t, Access(s, Parsing(fd), AcceptOn(s.world, fd, conn)));
    case Signal(_, wakee) =>
      LockInvSignal(c, s, t, wakee);
    case SignalNobody(_) =>
      LockInvAfter(c, s, t, Goto(s, Signalled(s.threads[t])));
    case Spurious(_) =>
      LockInvAfter(c, s, t, Goto(s, Woken(s.threads[t])));
  }

  // ---- The ring ----

  /** The ring holds q and nothing is half done. */
  ghost predicate Settled(c: Config, r: Ring, q: seq<Request>) {
    && |r.slots| == c.cap
    && Shape(r.slots, r.head, r.count)
    && r.tail == Wrap(c.cap, r.head + r.count)
    && q == Live(r.slots, r.head, r.count)
  }

  /** How far the compaction has got, from the position of its free slot. */
  function Reached(cap: int, head: int, cur: int): int {
    if cur >= head then cur - head else cur - head + cap
  }

  /** What the holder at pc has made of a ring that held q. */
  ghost predicate HeldAt(c: Config, r: Ring, q: seq<Request>, pc: Pc) {
    && |r.slots| == c.cap
    && Shape(r.slots, r.head, r.count)
    && 0 <= r.tail < c.cap
    && r.count == |q|
    && match pc
       case PutStoring(_) => Settled(c, r, q) && r.count < c.cap
       case PutAdvancing(req) => Settled(c, r, q) && r.count < c.cap && r.slots[r.tail] == req
       case PutCounting(req) =>
         && r.count < c.cap
         && r.tail == Wrap(c.cap, r.head + r.count + 1)
         && Live(r.slots, r.head, r.count + 1) == q + [req]
       case FifoLoading => Settled(c, r, q) && r.count > 0 && c.policy.Fifo?
       case FifoAdvancing(req) => Settled(c, r, q) && r.count > 0 && c.policy.Fifo? && req == q[0]
       case SffScanning(i, minLogical, minSize) =>
         && Settled(c, r, q) && c.policy.Sff?
         && 1 <= i <= r.count
         && IsLeftmostMin(q[..i], minLogical) && minSize == q[minLogical].filesize
       case SffShifting(req, cur, next) =>
         && r.count > 0 && c.policy.Sff?
         && r.tail == Wrap(c.cap, r.head + r.count)
         && req == q[LeftmostMin(q)]
         && Shifting(r.slots, r.head, q, LeftmostMin(q), Reached(c.cap, r.head, cur), cur, next)
       case GetCounting(req) =>
         && r.count > 0 && req == q[Chosen(c.policy, q)]
         && r.tail == Wrap(c.cap, r.head + r.count - 1)
         && Live(r.slots, r.head, r.count - 1) == Without(q, Chosen(c.policy, q))
       case _ => Settled(c, r, q)
  }

  /** The queue after the log. */
  function Queue(c: Config, s: State): seq<Request>
    requires c.cap >= 1 && Replay(c.policy, c.cap, [], s.log).Some?
  {
    Replay(c.policy, c.cap, [], s.log).value
  }

  /** The log is a run of the bounded queue, and the ring holds the queue after it
      up to what the holder of the mutex is in the middle of. */
  ghost predicate RingInv(c: Config, s: State) {
    && c.cap >= 1
    && Replay(c.policy, c.cap, [], s.log).Some?
    && (s.mutex.Some? ==> s.mutex.value < |s.threads|)
    && HeldAt(c, s.ring, Queue(c, s), if s.mutex.Some? then s.threads[s.mutex.value] else Accepting)
  }

  /** The step either leaves the abstract queue alone or is a put or a get of it,
      and the ring follows. */
  ghost predicate KeepsTheRun(c: Config, q: seq<Request>, e: Effect)
    requires c.cap >= 1
  {
    && (e.events == [] ==> HeldAt(c, e.ring, q, e.pc))
    && (e.events != [] ==>
          && |e.events| == 1
          && Apply(c.policy, c.cap, q, e.events[0]).Some?
          && HeldAt(c, e.ring, Apply(c.policy, c.cap, q, e.events[0]).value, e.pc))
  }

  lemma PutMoveOnRing(c: Config, s: State, t: nat, q: seq<Request>)
    requires t < |s.threads| && c.cap >= 1 && s.threads[t].InCritical() && s.threads[t].OfAcceptor()
    requires HeldAt(c, s.ring, q, s.threads[t]) && PutMove(c, s, t).Some?
    ensures KeepsTheRun(c, q, PutMove(c, s, t).value)
  {
    match s.threads[t]
    case PutAdvancing(req) => PutAdvances(c, s.ring, q, req);
    case _ =>
  }

  lemma PutAdvances(c: Config, r: Ring, q: seq<Request>, req: Request)
    requires c.cap >= 1 && HeldAt(c, r, q, PutAdvancing(req))
    ensures HeldAt(c, r.(tail := (r.tail + 1) % c.cap), q, PutCounting(req))
  {
    WrapIsMod(c.cap, r.tail + 1);
    StoreAppends(r.slots, r.head, r.count, req);
    assert r.slots[r.tail := req] == r.slots;
  }

  lemma FifoAdvances(c: Config, r: Ring, q: seq<Request>, req: Request)
    requires c.cap >= 1 && HeldAt(c, r, q, FifoAdvancing(req))
    ensures HeldAt(c, r.(head := (r.head + 1) % c.cap), q, GetCounting(req))
  {
    WrapIsMod(c.cap, r.head + 1);
    AdvanceDropsOldest(r.slots, r.head, r.count);
  }

  lemma ScanGoesOn(c: Config, r: Ring, q: seq<Request>, i: int, minLogical: int, minSize: int)
    requires c.cap >= 1 && HeldAt(c, r, q, SffScanning(i, minLogical, minSize)) && i < r.count
    ensures var next := Scan(c, r, i, minLogical, minSize); next.Some? && HeldAt(c, r, q, next.value)
  {
    WrapIsMod(c.cap, r.head + i);
    assert q[..i + 1] == q[..i] + [q[i]];
  }

  lemma ScanEnds(c: Config, r: Ring, q: seq<Request>, i: int, minLogical: int, minSize: int)
    requires c.cap >= 1 && HeldAt(c, r, q, SffScanning(i, minLogical, minSize)) && i >= r.count
    ensures var next := Scan(c, r, i, minLogical, minSize); next.Some? && HeldAt(c, r, q, next.value)
  {
    assert q[..i] == q;
    LeftmostMinUnique(q, minLogical);
    ShiftStarts(r.slots, r.head, r.count, minLogical);
  }

  lemma ShiftGoesOn(c: Config, r: Ring, q: seq<Request>, req: Request, cur: int, next: int)
    requires c.cap >= 1 && HeldAt(c, r, q, SffShifting(req, cur, next)) && next != r.tail
    ensures InSlots(r, cur) && InSlots(r, next)
    ensures HeldAt(c, r.(slots := r.slots[cur := r.slots[next]]), q, SffShifting(req, next, (next + 1) % c.cap))
  {
    var j := Reached(c.cap, r.head, cur);
    ShiftMoves(r.slots, r.head, q, LeftmostMin(q), j, cur, next);
    assert Reached(c.cap, r.head, next) == j + 1;
  }

  lemma ShiftStops(c: Config, r: Ring, q: seq<Request>, req: Request, cur: int, next: int)
    requires c.cap >= 1 && HeldAt(c, r, q, SffShifting(req, cur, next)) && next == r.tail
    ensures HeldAt(c, r.(tail := (r.tail - 1 + c.cap) % c.cap), q, GetCounting(req))
  {
    ShiftEnds(r.slots, r.head, q, LeftmostMin(q), Reached(c.cap, r.head, cur), cur, next);
  }

  lemma ScanOnRing(c: Config, r: Ring, q: seq<Request>, i: int, minLogical: int, minSize: int)
    requires c.cap >= 1 && HeldAt(c, r, q, SffScanning(i, minLogical, minSize))
    requires Scan(c, r, i, minLogical, minSize).Some?
    ensures HeldAt(c, r, q, Scan(c, r, i, minLogical, minSize).value)
  {
    if i < r.count {
      ScanGoesOn(c, r, q, i, minLogical, minSize);
    } else {
      ScanEnds(c, r, q, i, minLogical, minSize);
    }
  }

  lemma ShiftOnRing(c: Config, s: State, q: seq<Request>, req: Request, cur: int, next: int)
    requires c.cap >= 1 && HeldAt(c, s.ring, q, SffShifting(req, cur, next))
    requires Shift(c, s, req, cur, next).Some?
    ensures KeepsTheRun(c, q, Shift(c, s, req, cur, next).value)
  {
    if next != s.ring.tail {
      ShiftGoesOn(c, s.ring, q, req, cur, next);
    } else {
      ShiftStops(c, s.ring, q, req, cur, next);
    }
  }

  lemma GetMoveOnRing(c: Config, s: State, t: nat, q: seq<Request>)
    requires t < |s.threads| && c.cap >= 1 && s.threads[t].InCritical() && !s.threads[t].OfAcceptor()
    requires HeldAt(c, s.ring, q, s.threads[t]) && GetMove(c, s, t).Some?
    ensures KeepsTheRun(c, q, GetMove(c, s, t).value)
  {
    var r, pc := s.ring, s.threads[t];
    if pc.SffScanning? {
      ScanOnRing(c, r, q, pc.i, pc.minLogical, pc.minSize);
    } else if pc.SffShifting? {
      ShiftOnRing(c, s, q, pc.req, pc.cur, pc.next);
    } else if pc.FifoAdvancing? {
      FifoAdvances(c, r, q, pc.req);
    } else if r.count > 0 && (pc.GetTesting? || pc.FifoLoading?) {
      assert q[..1] == [q[0]];
      assert q[0] == r.slots[Wrap(c.cap, r.head)];
    }
  }

  lemma RingInvMove(c: Config, s: State, t: nat)
    requires RingInv(c, s) && LockInv(c, s) && t < |s.threads| && Move(c, s, t).Some?
    ensures RingInv(c, After(s, t, Move(c, s, t).value))
  {
    var e, pc, q := Move(c, s, t).value, s.threads[t], Queue(c, s);
    MoveRespectsTheLock(c, s, t);
    if pc.InCritical() {
      if pc.OfAcceptor() {
        PutMoveOnRing(c, s, t, q);
      } else {
        GetMoveOnRing(c, s, t, q);
      }
      if e.events == [] {
        assert s.log + e.events == s.log;
      } else {
        assert e.events == [e.events[0]];
        ReplayAppend(c.policy, c.cap, [], s.log, e.events[0]);
      }
    } else {
      assert s.log + e.events == s.log;
    }
  }

  lemma RingInvStep(c: Config, s: State, step: Step)
    requires c.cap >= 1 && LockInv(c, s) && RingInv(c, s) && Take(c, s, step).Some?
    ensures RingInv(c, Take(c, s, step).value)
  {
    match step
    case Act(t) => RingInvMove(c, s, t);
    case Signal(t, wakee) =>
    case _ => assert s.log + [] == s.log;
  }

  lemma LayoutFromZero(c: Config, r: Ring, q: seq<Request>)
    requires c.cap >= 1 && Settled(c, r, q) && r.head == 0
    ensures r.tail == r.count % c.cap && 0 <= r.count <= |r.slots| && r.slots[..r.count] == q
  {
    WrapIsMod(c.cap, r.count);
    assert forall k :: 0 <= k < r.count ==> r.slots[k] == q[k];
  }

  /** Under SFF nobody ever moves head. */
  lemma SffHeadStays(c: Config, s: State, step: Step)
    requires c.policy.Sff? && LockInv(c, s) && RingInv(c, s) && Take(c, s, step).Some?
    ensures Take(c, s, step).value.ring.head == s.ring.head
  {
    if step.Act? {
      SffMoveKeepsHead(c, s, step.t);
    }
  }

  lemma SffMoveKeepsHead(c: Config, s: State, t: nat)
    requires c.policy.Sff? && LockInv(c, s) && RingInv(c, s) && t < |s.threads| && Move(c, s, t).Some?
    ensures Move(c, s, t).value.ring.head == s.ring.head
  {
    var pc := s.threads[t];
    MoveRespectsTheLock(c, s, t);
    if pc.InCritical() {
      assert !pc.FifoAdvancing?;
    }
  }
}
