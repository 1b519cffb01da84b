/** The server cannot lock up: without new arrivals and spurious wake-ups, every
    run comes to an end after a bounded number of steps, and when no thread can go
    on, every connection whose request ends has been answered and closed, unless a
    request has ended the process. The proof is a measure that every step of every
    thread brings down. */
module Draining {
  import opened Requests
  import opened Folds
  import opened BoundedQueue
  import opened RingLayout
  import opened RequestHandling
  import opened Descriptors
  import opened ServerModel
  import opened Linearisation
  import opened WakeUps
  import opened Ownership
  import opened Responses
  import opened ServerTheorems

  // ---- The measure ----

  /** The steps that an entry of the queue may still cost a worker. */
  function PerEntry(cap: nat): nat {
    2 * cap + 20
  }

  /** The steps that a thread may still take with what it has in its hands, with
      those of the thread that its signal wakes, and without the rounds of the scan
      and of the compaction. Between taking an entry and counting it, a worker has
      drawn on what the entry will bring. */
  function Weight(cap: nat, pc: Pc): nat {
    var idle, entry := 2 * cap + 3, PerEntry(cap);
    match pc
    case Accepting => idle
    case Parsing(_) => idle + entry + 11
    case Refusing(_, todo) => idle + 1 + |todo|
    case PutLocking(_) => idle + entry + 10
    case PutTesting(_) => idle + entry + 9
    case PutAsleep(_) => idle + entry + 8
    case PutWoken(_) => idle + entry + 10
    case PutStoring(_) => idle + entry + 8
    case PutAdvancing(_) => idle + entry + 7
    case PutCounting(_) => idle + entry + 6
    case PutSignalling => idle + 5
    case PutUnlocking => idle + 1
    case GetLocking => idle + 2
    case GetTesting => idle + 1
    case GetAsleep => idle
    case GetWoken => idle + 2
    case FifoLoading => idle
    case FifoAdvancing(_) => idle - 1
    case SffScanning(_, _, _) => 3
    case SffShifting(_, _, _) => 2
    case GetCounting(_) => 1
    case GetSignalling(_) => idle + 17
    case GetUnlocking(_) => idle + 14
    case Serving(_) => idle + 13
    case Sending(_, todo) => idle + 3 + |todo|
  }

  function WeightOf(cap: nat): Pc -> nat {
    pc => Weight(cap, pc)
  }

  function Entries(cap: nat, n: nat): nat {
    if n == 0 then 0 else PerEntry(cap) + Entries(cap, n - 1)
  }

  /** The rounds of the scan and of the compaction that are left. */
  function Rounds(cap: nat, r: Ring, pc: Pc): nat {
    match pc
    case SffScanning(i, _, _) => if i <= r.count then cap + (r.count - i) else 0
    case SffShifting(_, cur, _) =>
      var j := Reached(cap, r.head, cur);
      if j <= cap then cap - j else 0
    case _ => 0
  }

  ghost predicate Measured(c: Config, s: State) {
    && c.cap >= 1
    && Replay(c.policy, c.cap, [], s.log).Some?
    && (s.mutex.Some? ==> s.mutex.value < |s.threads|)
  }

  function Alive(w: World): nat {
    if w.failed then 0 else 1
  }

  /** A bound on the steps to come. */
  function Effort(c: Config, s: State): nat
    requires Measured(c, s)
  {
    Entries(c.cap, |Queue(c, s)|) + Count(WeightOf(c.cap), s.threads) + Rounds(c.cap, s.ring, Holder(s))
    + Alive(s.world)
  }

  // ---- Every step of one thread brings it down ----

  function Gone(cap: nat, e: Event): nat {
    if e.Got? then PerEntry(cap) else 0
  }

  function Come(cap: nat, e: Event): nat {
    if e.Put? then PerEntry(cap) else 0
  }

  /** The step leaves less than it found. */
  ghost predicate Lightens(cap: nat, s: State, t: nat, e: Effect)
    requires t < |s.threads|
  {
    var before := Weight(cap, s.threads[t]) + Rounds(cap, s.ring, s.threads[t]) + Alive(s.world);
    var after := Weight(cap, e.pc) + Rounds(cap, e.ring, e.pc) + Alive(e.world);
    && |e.events| <= 1
    && (e.events == [] ==> after < before)
    && (e.events != [] ==> after + Come(cap, e.events[0]) < before + Gone(cap, e.events[0]))
  }

  lemma PutLightens(c: Config, s: State, t: nat)
    requires t < |s.threads| && c.cap >= 1 && PutMove(c, s, t).Some?
    ensures Lightens(c.cap, s, t, PutMove(c, s, t).value)
  {
  }

  lemma ScanLightens(c: Config, s: State, t: nat, q: seq<Request>)
    requires t < |s.threads| && c.cap >= 1 && s.threads[t].SffScanning? && GetMove(c, s, t).Some?
    requires HeldAt(c, s.ring, q, s.threads[t])
    ensures Lightens(c.cap, s, t, GetMove(c, s, t).value)
  {
  }

  lemma ShiftLightens(c: Config, s: State, t: nat, q: seq<Request>)
    requires t < |s.threads| && c.cap >= 1 && s.threads[t].SffShifting? && GetMove(c, s, t).Some?
    requires HeldAt(c, s.ring, q, s.threads[t])
    ensures Lightens(c.cap, s, t, GetMove(c, s, t).value)
  {
    var r, pc := s.ring, s.threads[t];
    if pc.next != r.tail {
      assert Reached(c.cap, r.head, pc.next) == Reached(c.cap, r.head, pc.cur) + 1 < c.cap by {
        ShiftMoves(r.slots, r.head, q, LeftmostMin(q), Reached(c.cap, r.head, pc.cur), pc.cur, pc.next);
      }
    }
  }

  lemma GetLightens(c: Config, s: State, t: nat)
    requires t < |s.threads| && c.cap >= 1 && GetMove(c, s, t).Some?
    requires !s.threads[t].SffScanning? && !s.threads[t].SffShifting?
    requires s.threads[t].GetTesting? ==> s.ring.count <= c.cap
    ensures Lightens(c.cap, s, t, GetMove(c, s, t).value)
  {
  }

  lemma ParsingLightens(c: Config, s: State, t: nat)
    requires t < |s.threads| && c.cap >= 1 && AcceptorMove(c, s, t).Some? && !s.world.failed
    ensures Lightens(c.cap, s, t, AcceptorMove(c, s, t).value)
  {
    if s.threads[t].Parsing? {
      var fd := s.threads[t].fd;
      DecidedLightens(c, s, t, ParseOutcome(c.fs, s.world.conns[s.world.open[fd]], fd));
    }
  }

  lemma DecidedLightens(c: Config, s: State, t: nat, p: Parsed)
    requires t < |s.threads| && c.cap >= 1 && s.threads[t].Parsing? && !p.Stuck?
    ensures Decided(c, s, s.threads[t].fd, p).Some?
    ensures Lightens(c.cap, s, t, Decided(c, s, s.threads[t].fd, p).value)
  {
    if p.Rejected? {
      FourWrites(c.fs, p.cause, p.why);
    }
  }

  lemma FourWrites(fs: FileSystem, cause: string, why: Refusal)
    ensures |Writes(fs, Refused(cause, why))| == 4
  {
  }

  lemma ServingLightens(c: Config, s: State, t: nat)
    requires t < |s.threads| && c.cap >= 1 && ServeMove(c, s, t).Some? && !s.world.failed
    ensures Lightens(c.cap, s, t, ServeMove(c, s, t).value)
  {
    if s.threads[t].Serving? && ServeOutcome(c.fs, s.threads[t].req).Replies? {
      TwoWrites(c.fs, s.threads[t].req);
    }
  }

  lemma TwoWrites(fs: FileSystem, req: Request)
    requires ServeOutcome(fs, req).Replies?
    ensures |Writes(fs, ServeOutcome(fs, req).reply)| == 2
  {
  }

  lemma MoveLightens(c: Config, s: State, t: nat)
    requires LockInv(c, s) && RingInv(c, s) && !s.world.failed && t < |s.threads| && Move(c, s, t).Some?
    ensures Lightens(c.cap, s, t, Move(c, s, t).value)
  {
    var pc := s.threads[t];
    if pc.Parsing? || pc.Refusing? {
      ParsingLightens(c, s, t);
    } else if pc.Serving? || pc.Sending? {
      ServingLightens(c, s, t);
    } else if pc.OfAcceptor() {
      PutLightens(c, s, t);
    } else if pc.SffScanning? {
      ScanLightens(c, s, t, Queue(c, s));
    } else if pc.SffShifting? {
      ShiftLightens(c, s, t, Queue(c, s));
    } else {
      GetLightens(c, s, t);
    }
  }

  lemma EntriesAfter(c: Config, s: State, events: seq<Event>)
    requires Measured(c, s) && |events| <= 1 && Replay(c.policy, c.cap, [], s.log + events).Some?
    ensures var n, n' := |Queue(c, s)|, |Replay(c.policy, c.cap, [], s.log + events).value|;
            && (events == [] ==> n' == n)
            && (events != [] ==>
                  Entries(c.cap, n') + Gone(c.cap, events[0]) == Entries(c.cap, n) + Come(c.cap, events[0]))
  {
    if events == [] {
      assert s.log + events == s.log;
    } else {
      assert events == [events[0]];
      ReplayAppend(c.policy, c.cap, [], s.log, events[0]);
    }
  }

  /** Only the holder of the mutex has rounds to go. */
  lemma RoundsAfter(c: Config, s: State, t: nat, e: Effect)
    requires LockInv(c, s) && c.cap >= 1 && t < |s.threads| && RespectsTheLock(s, t, e)
    ensures LockInv(c, After(s, t, e))
    ensures Rounds(c.cap, e.ring, Holder(After(s, t, e))) + Rounds(c.cap, s.ring, s.threads[t]) ==
            Rounds(c.cap, s.ring, Holder(s)) + Rounds(c.cap, e.ring, e.pc)
  {
    LockInvAfter(c, s, t, e);
  }

  lemma ActLightens(c: Config, s: State, t: nat)
    requires LockInv(c, s) && RingInv(c, s) && !s.world.failed && t < |s.threads| && Move(c, s, t).Some?
    requires Measured(c, After(s, t, Move(c, s, t).value))
    ensures Effort(c, After(s, t, Move(c, s, t).value)) < Effort(c, s)
  {
    var e := Move(c, s, t).value;
    MoveLightens(c, s, t);
    MoveRespectsTheLock(c, s, t);
    EffortAfter(c, s, t, e);
  }

  lemma EffortAfter(c: Config, s: State, t: nat, e: Effect)
    requires LockInv(c, s) && Measured(c, s) && t < |s.threads| && RespectsTheLock(s, t, e)
    requires Measured(c, After(s, t, e)) && Lightens(c.cap, s, t, e)
    ensures Effort(c, After(s, t, e)) < Effort(c, s)
  {
    CountUpdate(WeightOf(c.cap), s.threads, t, e.pc);
    EntriesAfter(c, s, e.events);
    RoundsAfter(c, s, t, e);
  }

  /** The signaller has paid for what the thread it wakes may do. */
  lemma SignalPays(cap: nat, ts: seq<Pc>, t: nat, wakee: nat)
    requires t < |ts| && wakee < |ts| && Hears(ts[t], ts[wakee])
    ensures var ts' := ts[t := Signalled(ts[t])][wakee := Woken(ts[wakee])];
            ts'[t] == Signalled(ts[t]) && Count(WeightOf(cap), ts') < Count(WeightOf(cap), ts)
  {
    CountUpdate(WeightOf(cap), ts, t, Signalled(ts[t]));
    CountUpdate(WeightOf(cap), ts[t := Signalled(ts[t])], wakee, Woken(ts[wakee]));
  }

  lemma SignalLightens(c: Config, s: State, t: nat, wakee: nat)
    requires LockInv(c, s) && Measured(c, s) && t < |s.threads| && wakee < |s.threads|
    requires Hears(s.threads[t], s.threads[wakee])
    ensures var s' := s.(threads := s.threads[t := Signalled(s.threads[t])][wakee := Woken(s.threads[wakee])]);
            Measured(c, s') && Effort(c, s') < Effort(c, s)
  {
    SignalPays(c.cap, s.threads, t, wakee);
    assert s.mutex == Some(t);
  }

  lemma SilenceLightens(c: Config, s: State, t: nat)
    requires LockInv(c, s) && Measured(c, s) && t < |s.threads|
    requires s.threads[t].PutSignalling? || s.threads[t].GetSignalling?
    ensures var s' := After(s, t, Goto(s, Signalled(s.threads[t])));
            Measured(c, s') && Effort(c, s') < Effort(c, s)
  {
    var e := Goto(s, Signalled(s.threads[t]));
    assert s.log + [] == s.log;
    EffortAfter(c, s, t, e);
  }

  /** The server's own steps: no arrival and no wake-up without a signal. */
  predicate IsOwn(step: Step) {
    !step.Accept? && !step.Spurious?
  }

  predicate AllOwn(steps: seq<Step>) {
    forall k :: 0 <= k < |steps| ==> IsOwn(steps[k])
  }

  lemma StepLightens(c: Config, s: State, step: Step)
    requires LockInv(c, s) && RingInv(c, s) && Take(c, s, step).Some? && IsOwn(step)
    ensures Measured(c, Take(c, s, step).value) && Effort(c, Take(c, s, step).value) < Effort(c, s)
  {
    LockInvStep(c, s, step);
    RingInvStep(c, s, step);
    match step
    case Act(t) => ActLightens(c, s, t);
    case Signal(t, wakee) => SignalLightens(c, s, t, wakee);
    case SignalNobody(t) => SilenceLightens(c, s, t);
  }

  /** Runs of own steps are bounded. */
  lemma {:induction false} OwnRunsEnd(c: Config, s: State, steps: seq<Step>)
    requires c.cap >= 1 && Reachable(c, s) && Run(c, s, steps).Some? && AllOwn(steps)
    ensures Reachable(c, Run(c, s, steps).value)
    ensures Measured(c, s) && |steps| <= Effort(c, s)
    decreases |steps|
  {
    ReachableIsMeasured(c, s);
    if steps != [] {
      var s1 := Take(c, s, steps[0]).value;
      ReachableNext(c, s, steps[0]);
      ReachableStepLightens(c, s, steps[0]);
      OwnRunsEnd(c, s1, steps[1..]);
    }
  }

  lemma ReachableIsMeasured(c: Config, s: State)
    requires c.cap >= 1 && Reachable(c, s)
    ensures Measured(c, s)
  {
    InvReachable(c, s);
  }

  lemma ReachableStepLightens(c: Config, s: State, step: Step)
    requires c.cap >= 1 && Reachable(c, s) && Take(c, s, step).Some? && IsOwn(step)
    ensures Measured(c, s) && Measured(c, Take(c, s, step).value)
    ensures Effort(c, Take(c, s, step).value) < Effort(c, s)
  {
    InvReachable(c, s);
    StepLightens(c, s, step);
  }

  // ---- Where they end ----

  /** No thread can go on by itself. */
  ghost predicate Quiet(c: Config, s: State)
    requires c.cap >= 1
  {
    forall step :: IsOwn(step) ==> Take(c, s, step).None?
  }

  /** The thread has nothing to do: it waits for a connection or sleeps until there
      is a request, or it is inside a request_parse that never returns. */
  predicate Resting(c: Config, w: World, pc: Pc) {
    || pc.Accepting? || pc.GetAsleep?
    || (pc.Parsing? && Denotes(w, pc.fd) && ParseOutcome(c.fs, w.conns[w.open[pc.fd]], pc.fd).Stuck?)
  }

  ghost predicate AtRest(c: Config, s: State) {
    s.mutex.None? && s.ring.count == 0 && forall t :: 0 <= t < |s.threads| ==> Resting(c, s.world, s.threads[t])
  }

  /** The holder of the mutex can always go on. */
  lemma HolderCanMove(c: Config, s: State, h: nat)
    requires LockInv(c, s) && RingInv(c, s) && !s.world.failed && s.mutex == Some(h)
    ensures exists step :: IsOwn(step) && step.t == h && Take(c, s, step).Some?
  {
    var pc := s.threads[h];
    if pc.PutSignalling? || pc.GetSignalling? {
      if wakee :| 0 <= wakee < |s.threads| && Hears(pc, s.threads[wakee]) {
        assert Take(c, s, Signal(h, wakee)).Some?;
      } else {
        assert Take(c, s, SignalNobody(h)).Some?;
      }
    } else {
      if pc.OfAcceptor() {
        PutGoesOn(c, s, h, Queue(c, s));
      } else {
        GetGoesOn(c, s, h, Queue(c, s));
      }
      assert Take(c, s, Act(h)).Some?;
    }
  }

  lemma PutGoesOn(c: Config, s: State, t: nat, q: seq<Request>)
    requires t < |s.threads| && c.cap >= 1 && HeldAt(c, s.ring, q, s.threads[t])
    requires s.threads[t].InCritical() && s.threads[t].OfAcceptor() && !s.threads[t].PutSignalling?
    ensures PutMove(c, s, t).Some?
  {
  }

  lemma GetGoesOn(c: Config, s: State, t: nat, q: seq<Request>)
    requires t < |s.threads| && c.cap >= 1 && HeldAt(c, s.ring, q, s.threads[t])
    requires s.threads[t].InCritical() && !s.threads[t].OfAcceptor() && !s.threads[t].GetSignalling?
    ensures GetMove(c, s, t).Some?
  {
    var r, pc := s.ring, s.threads[t];
    if pc.SffScanning? {
      if pc.i < r.count {
        ScanGoesOn(c, r, q, pc.i, pc.minLogical, pc.minSize);
      } else {
        ScanEnds(c, r, q, pc.i, pc.minLogical, pc.minSize);
      }
    } else if pc.SffShifting? && pc.next != r.tail {
      ShiftGoesOn(c, r, q, pc.req, pc.cur, pc.next);
    }
  }

  /** With the mutex free, a thread that neither rests nor waits for a free slot can
      go on: it is at work by itself or can take the mutex. */
  lemma OthersCanMove(c: Config, s: State, l: seq<Entry>, t: nat)
    requires LockInv(c, s) && c.cap >= 1 && !s.world.failed && s.mutex.None? && t < |s.threads|
    requires l == Ledger(c.fs, s.world.conns) && ThreadOk(l, s.world, s.threads[t])
    requires !Resting(c, s.world, s.threads[t]) && !s.threads[t].PutAsleep?
    ensures Take(c, s, Act(t)).Some?
  {
    var pc := s.threads[t];
    assert !pc.InCritical();
    if pc.Parsing? {
      assert Denotes(s.world, pc.fd);
      assert AcceptorMove(c, s, t).Some?;
    }
  }

  lemma QuietIsAtRest(c: Config, s: State)
    requires Sane(c) && Inv(c, s) && !s.world.failed && Quiet(c, s)
    ensures AtRest(c, s)
  {
    if s.mutex.Some? {
      HolderCanMove(c, s, s.mutex.value);
    }
    QuietThreadsRest(c, s, Ledger(c.fs, s.world.conns));
    EverySleeperHasReason(c, s);
  }

  lemma QuietThreadsRest(c: Config, s: State, l: seq<Entry>)
    requires LockInv(c, s) && c.cap >= 1 && !s.world.failed && s.mutex.None? && Quiet(c, s)
    requires l == Ledger(c.fs, s.world.conns)
    requires forall t :: 0 <= t < |s.threads| ==> ThreadOk(l, s.world, s.threads[t])
    ensures forall t :: 0 <= t < |s.threads| ==> Resting(c, s.world, s.threads[t]) || s.threads[t].PutAsleep?
  {
    forall t | 0 <= t < |s.threads| ensures Resting(c, s.world, s.threads[t]) || s.threads[t].PutAsleep? {
      if !Resting(c, s.world, s.threads[t]) && !s.threads[t].PutAsleep? {
        OthersCanMove(c, s, l, t);
      }
    }
  }

  /** When nobody is on the way to the buffer, the workers sleep because it is empty,
      and then no putter sleeps. */
  lemma EverySleeperHasReason(c: Config, s: State)
    requires Sane(c) && LockInv(c, s) && RingInv(c, s) && WakeInv(c, s) && s.mutex.None?
    requires forall t :: 0 <= t < |s.threads| ==> Resting(c, s.world, s.threads[t]) || s.threads[t].PutAsleep?
    ensures s.ring.count == 0 && forall t :: 0 <= t < |s.threads| ==> !s.threads[t].PutAsleep?
  {
    var worker := s.threads[c.acceptors];
    assert !worker.OfAcceptor();
    assert worker.GetAsleep?;
    NoLostWakeUp(c, s);
    CountNone(OfKind(WokenWorker), s.threads);
    CountNone(OfKind(WokenPutter), s.threads);
  }

  lemma RestingHolderIsStuck(c: Config, w: World, pc: Pc, fd: int)
    requires Resting(c, w, pc) && Token(pc) == Some(fd)
    ensures Denotes(w, fd) && PipelineOutcome(c.fs, w.conns[w.open[fd]], 0) == Hangs
  {
    PipelineIgnoresTheNumber(c.fs, w.conns[w.open[fd]], fd, 0);
  }

  lemma OpenAtRestIsStuck(c: Config, s: State, fd: int)
    requires OwnInv(c, s) && RingInv(c, s) && AtRest(c, s) && fd in s.world.open
    ensures Denotes(s.world, fd) && PipelineOutcome(c.fs, s.world.conns[s.world.open[fd]], 0) == Hangs
  {
    OpenIsHeld(c, s, fd);
    assert Queue(c, s) == [];
    var t :| 0 <= t < |s.threads| && Token(s.threads[t]) == Some(fd);
    RestingHolderIsStuck(c, s.world, s.threads[t], fd);
  }

  /** At rest, a connection is open if and only if its request never ends, and no
      request has ended the process. */
  lemma AtRestOnlyStuckAreOpen(c: Config, s: State, n: nat)
    requires OwnInv(c, s) && RingInv(c, s) && ConnInv(c, s) && AtRest(c, s) && n < |s.world.conns|
    ensures IsOpen(s.world, n) <==> PipelineOutcome(c.fs, s.world.conns[n], 0) == Hangs
    ensures !Kills(c.fs, s.world.conns[n])
  {
    DiesIff(c.fs, s.world.conns[n], 0);
    if fd :| fd in s.world.open && s.world.open[fd] == n {
      OpenAtRestIsStuck(c, s, fd);
    } else {
      FinishedHasReplied(c.fs, s.world, n);
    }
  }

  lemma FinishedHasReplied(fs: FileSystem, w: World, n: nat)
    requires TableOk(Ledger(fs, w.conns), w) && n < |w.conns| && !IsOpen(w, n)
    ensures PipelineOutcome(fs, w.conns[n], 0).Replies?
  {
    assert Finished(Ledger(fs, w.conns), w, n);
  }

  // ---- The theorems ----

  lemma OwnStepKeepsConnections(c: Config, s: State, step: Step)
    requires c.cap >= 1 && ConnInv(c, s) && Take(c, s, step).Some? && !step.Accept?
    ensures Take(c, s, step).value.world.conns == s.world.conns
  {
    if step.Act? {
      MoveDoesRight(c, Ledger(c.fs, s.world.conns), s, step.t);
    }
  }

  lemma {:induction false} OwnRunKeepsConnections(c: Config, s: State, steps: seq<Step>)
    requires c.cap >= 1 && Reachable(c, s) && Run(c, s, steps).Some? && AllOwn(steps)
    ensures Run(c, s, steps).value.world.conns == s.world.conns
    decreases |steps|
  {
    if steps != [] {
      InvReachable(c, s);
      OwnStepKeepsConnections(c, s, steps[0]);
      ReachableNext(c, s, steps[0]);
      OwnRunKeepsConnections(c, Take(c, s, steps[0]).value, steps[1..]);
    }
  }

  /** Connection n has been closed once, with everything on it that the sequential
      server would have written. */
  predicate Served(fs: FileSystem, w: World, n: nat)
    requires Shaped(w) && n < |w.conns|
  {
    w.closes[n] == 1 && SequentialBytes(fs, w.conns[n]) == Some(w.output[n])
  }

  /** Connection n has been served if its request ends, and only then, provided that
      it fits the arrays. */
  predicate ServedAsDue(fs: FileSystem, w: World, n: nat)
    requires Shaped(w) && n < |w.conns|
  {
    FitsArrays(fs, w.conns[n]) ==> (Served(fs, w, n) <==> HandleOutcome(fs, w.conns[n]).Replies?)
  }

  lemma AtRestServedAsDue(c: Config, s: State, n: nat)
    requires Sane(c) && Reachable(c, s) && AtRest(c, s) && n < |s.world.conns|
    ensures Shaped(s.world) && ServedAsDue(c.fs, s.world, n) && !Kills(c.fs, s.world.conns[n])
  {
    InvReachable(c, s);
    AtRestOnlyStuckAreOpen(c, s, n);
    if FitsArrays(c.fs, s.world.conns[n]) {
      PipelineIsSequential(c.fs, s.world.conns[n], 0);
      if !IsOpen(s.world, n) {
        ConcurrentRefinesSequential(c, s, n);
      }
    }
  }

  lemma QuietHasServed(c: Config, s: State)
    requires Sane(c) && Reachable(c, s) && Quiet(c, s)
    ensures Shaped(s.world)
    ensures s.world.failed <==> exists n :: 0 <= n < |s.world.conns| && Kills(c.fs, s.world.conns[n])
    ensures !s.world.failed ==> forall n :: 0 <= n < |s.world.conns| ==> ServedAsDue(c.fs, s.world, n)
  {
    InvReachable(c, s);
    SomeoneKills(c.fs, s.world.conns);
    if !s.world.failed {
      QuietIsAtRest(c, s);
      forall n | 0 <= n < |s.world.conns|
        ensures !Kills(c.fs, s.world.conns[n]) && ServedAsDue(c.fs, s.world, n)
      {
        AtRestServedAsDue(c, s, n);
      }
    }
  }

  /** Every run without arrivals and spurious wake-ups, in whatever order the threads
      take their turns, has a bounded number of steps; and where none can go on, a
      request for a file that cannot be mapped has ended the process, or every
      connection has its whole response and is closed, except those whose request
      never ends. */
  lemma EveryRunServesEverybody(c: Config, s: State, steps: seq<Step>)
    requires Sane(c) && Reachable(c, s) && Run(c, s, steps).Some? && AllOwn(steps)
    ensures Measured(c, s) && |steps| <= Effort(c, s)
    ensures var w := Run(c, s, steps).value.world; w.conns == s.world.conns && Shaped(w)
    ensures var s' := Run(c, s, steps).value;
            Quiet(c, s') ==>
              && (s'.world.failed <==> exists n :: 0 <= n < |s.world.conns| && Kills(c.fs, s.world.conns[n]))
              && (!s'.world.failed ==> forall n :: 0 <= n < |s.world.conns| ==> ServedAsDue(c.fs, s'.world, n))
  {
    OwnRunsEnd(c, s, steps);
    OwnRunKeepsConnections(c, s, steps);
    var s' := Run(c, s, steps).value;
    ReachableIsShaped(c, s');
    if Quiet(c, s') {
      QuietHasServed(c, s');
    }
  }

  lemma ReachableIsShaped(c: Config, s: State)
    requires c.cap >= 1 && Reachable(c, s)
    ensures Shaped(s.world) && |s.threads| == c.acceptors + c.workers
  {
    InvReachable(c, s);
  }

  /** From every reachable state some run of own steps gets to where none can go on. */
  lemma {:induction false} SomeQuietRun(c: Config, s: State) returns (steps: seq<Step>, s': State)
    requires c.cap >= 1 && Reachable(c, s) && Measured(c, s)
    ensures Run(c, s, steps) == Some(s') && AllOwn(steps) && Reachable(c, s') && Quiet(c, s')
    decreases Effort(c, s)
  {
    if Quiet(c, s) {
      steps, s' := [], s;
    } else {
      var step :| IsOwn(step) && Take(c, s, step).Some?;
      ReachableStepLightens(c, s, step);
      ReachableNext(c, s, step);
      var rest;
      rest, s' := SomeQuietRun(c, Take(c, s, step).value);
      steps := [step] + rest;
      assert steps[1..] == rest;
    }
  }

  /** So from every reachable state everybody can still be served, unless somebody
      asks for a file that cannot be mapped. */
  lemma EverybodyCanBeServed(c: Config, s: State) returns (steps: seq<Step>, s': State)
    requires Sane(c) && Reachable(c, s)
    requires forall n :: 0 <= n < |s.world.conns| ==> !Kills(c.fs, s.world.conns[n])
    ensures Run(c, s, steps) == Some(s') && AllOwn(steps) && Reachable(c, s')
    ensures s'.world.conns == s.world.conns && Shaped(s'.world)
    ensures forall n :: 0 <= n < |s.world.conns| ==> ServedAsDue(c.fs, s'.world, n)
  {
    ReachableIsMeasured(c, s);
    steps, s' := SomeQuietRun(c, s);
    EveryRunServesEverybody(c, s, steps);
  }

  // ---- The acceptor ----

  /** Thread t is inside a request_parse that never returns. */
  predicate StuckIn(c: Config, s: State, t: nat) {
    && t < |s.threads| && s.threads[t].Parsing? && Denotes(s.world, s.threads[t].fd)
    && ParseOutcome(c.fs, s.world.conns[s.world.open[s.threads[t].fd]], s.threads[t].fd).Stuck?
  }

  /** While a thread parses, nobody else changes what its descriptor denotes. */
  lemma ParsingIsLeftAlone(c: Config, s: State, step: Step, t: nat, fd: int)
    requires OwnInv(c, s) && ConnInv(c, s) && Take(c, s, step).Some?
    requires t < |s.threads| && s.threads[t] == Parsing(fd)
    requires !(step.Act? && step.t == t)
    ensures var s' := Take(c, s, step).value;
            && t < |s'.threads| && s'.threads[t] == Parsing(fd)
            && fd in s.world.open && fd in s'.world.open && s'.world.open[fd] == s.world.open[fd]
            && s.world.conns <= s'.world.conns && s.world.open[fd] < |s.world.conns|
  {
    HeldIsOpen(c, s, t, fd);
    if step.Act? {
      MoveLeavesAlone(c, s, step.t, t, fd);
    } else {
      SyncLeavesAlone(s, step, t, fd);
    }
  }

  lemma SyncLeavesAlone(s: State, step: Step, t: nat, fd: int)
    requires step.t < |s.threads| && !step.Act? && Sync(s, step).Some?
    requires t < |s.threads| && s.threads[t] == Parsing(fd) && fd in s.world.open
    ensures var s' := Sync(s, step).value;
            && t < |s'.threads| && s'.threads[t] == Parsing(fd)
            && fd in s'.world.open && s'.world.open[fd] == s.world.open[fd]
            && s.world.conns <= s'.world.conns
  {
  }

  lemma MoveLeavesAlone(c: Config, s: State, u: nat, t: nat, fd: int)
    requires OwnInv(c, s) && ConnInv(c, s) && u < |s.threads| && t < |s.threads| && u != t && Move(c, s, u).Some?
    requires s.threads[t] == Parsing(fd) && fd in s.world.open
    ensures var w' := Move(c, s, u).value.world;
            fd in w'.open && w'.open[fd] == s.world.open[fd] && w'.conns == s.world.conns
  {
    MoveHandsOn(c, s, u);
    MoveDoesRight(c, Ledger(c.fs, s.world.conns), s, u);
    if Token(s.threads[u]).Some? {
      ThreadsHoldDifferentDescriptors(c, s, t, u, fd);
    }
  }

  /** No step of a thread's own code makes it parse. */
  lemma MovesDoNotParse(c: Config, s: State, t: nat)
    requires c.cap >= 1 && t < |s.threads| && Move(c, s, t).Some?
    ensures !Move(c, s, t).value.pc.Parsing?
  {
  }

  lemma StuckStays(c: Config, s: State, step: Step, t: nat)
    requires c.cap >= 1 && Reachable(c, s) && Take(c, s, step).Some? && StuckIn(c, s, t)
    ensures StuckIn(c, Take(c, s, step).value, t)
  {
    assert OwnInv(c, s) && ConnInv(c, s) by {
      InvReachable(c, s);
    }
    ParsingIsLeftAlone(c, s, step, t, s.threads[t].fd);
  }

  lemma StuckWasStuck(c: Config, s: State, step: Step, t: nat)
    requires c.cap >= 1 && OwnInv(c, s) && ConnInv(c, s) && Take(c, s, step).Some? && IsOwn(step)
    requires StuckIn(c, Take(c, s, step).value, t)
    ensures StuckIn(c, s, t)
  {
    ParsingIsOld(c, s, step, t);
    OwnStepKeepsConnections(c, s, step);
    ParsingIsLeftAlone(c, s, step, t, Take(c, s, step).value.threads[t].fd);
  }

  lemma ParsingIsOld(c: Config, s: State, step: Step, t: nat)
    requires c.cap >= 1 && Take(c, s, step).Some? && IsOwn(step)
    requires t < |Take(c, s, step).value.threads| && Take(c, s, step).value.threads[t].Parsing?
    ensures t < |s.threads| && s.threads[t] == Take(c, s, step).value.threads[t] && !(step.Act? && step.t == t)
  {
    if step.Act? {
      MovesDoNotParse(c, s, step.t);
    }
  }

  lemma StuckIsOld(c: Config, s: State, step: Step, t: nat)
    requires c.cap >= 1 && Reachable(c, s) && Take(c, s, step).Some? && IsOwn(step)
    requires StuckIn(c, Take(c, s, step).value, t)
    ensures StuckIn(c, s, t)
  {
    assert OwnInv(c, s) && ConnInv(c, s) by {
      InvReachable(c, s);
    }
    StuckWasStuck(c, s, step, t);
  }

  lemma {:induction false} StuckForEver(c: Config, s: State, steps: seq<Step>, t: nat)
    requires c.cap >= 1 && Reachable(c, s) && Run(c, s, steps).Some? && StuckIn(c, s, t)
    ensures StuckIn(c, Run(c, s, steps).value, t)
    decreases |steps|
  {
    if steps != [] {
      ReachableNext(c, s, steps[0]);
      StuckStays(c, s, steps[0], t);
      StuckForEver(c, Take(c, s, steps[0]).value, steps[1..], t);
    }
  }

  lemma {:induction false} StuckAllAlong(c: Config, s: State, steps: seq<Step>, t: nat)
    requires c.cap >= 1 && Reachable(c, s) && Run(c, s, steps).Some? && AllOwn(steps)
    requires StuckIn(c, Run(c, s, steps).value, t)
    ensures StuckIn(c, s, t)
    decreases |steps|
  {
    if steps != [] {
      ReachableNext(c, s, steps[0]);
      StuckAllAlong(c, Take(c, s, steps[0]).value, steps[1..], t);
      StuckIsOld(c, s, steps[0], t);
    }
  }

  lemma BusyAcceptorAcceptsNobody(c: Config, s: State, step: Step)
    requires c.cap >= 1 && LockInv(c, s) && c.acceptors == 1 && Take(c, s, step).Some?
    requires 0 < |s.threads| && !s.threads[0].Accepting?
    ensures !step.Accept?
  {
    assert s.threads[step.t].Accepting? ==> s.threads[step.t].OfAcceptor();
  }

  lemma StuckAcceptorAcceptsNobody(c: Config, s: State, step: Step)
    requires c.cap >= 1 && c.acceptors == 1 && Reachable(c, s) && StuckIn(c, s, 0) && Take(c, s, step).Some?
    ensures Take(c, s, step).value.world.conns == s.world.conns
  {
    assert LockInv(c, s) && ConnInv(c, s) by {
      InvReachable(c, s);
    }
    BusyAcceptorAcceptsNobody(c, s, step);
    OwnStepKeepsConnections(c, s, step);
  }

  /** With the only acceptor in a request_parse that never returns, no run whatever
      accepts another connection. */
  lemma {:induction false} NobodyElseIsAccepted(c: Config, s: State, steps: seq<Step>)
    requires c.cap >= 1 && c.acceptors == 1 && Reachable(c, s) && Run(c, s, steps).Some? && StuckIn(c, s, 0)
    ensures Run(c, s, steps).value.world.conns == s.world.conns
    decreases |steps|
  {
    if steps != [] {
      StuckAcceptorAcceptsNobody(c, s, steps[0]);
      StuckStays(c, s, steps[0], 0);
      ReachableNext(c, s, steps[0]);
      NobodyElseIsAccepted(c, Take(c, s, steps[0]).value, steps[1..]);
    }
  }

  /** An acceptor can get back to accept by the server's own steps if and only if it
      is not inside a request_parse that never returns. */
  lemma AcceptorReturnsIff(c: Config, s: State, t: nat)
    requires Sane(c) && Reachable(c, s) && t < c.acceptors
    requires forall n :: 0 <= n < |s.world.conns| ==> !Kills(c.fs, s.world.conns[n])
    ensures (exists steps :: AllOwn(steps) && Run(c, s, steps).Some? && BackAtAccept(Run(c, s, steps).value, t))
            <==> !StuckIn(c, s, t)
  {
    InvReachable(c, s);
    if StuckIn(c, s, t) {
      forall steps | AllOwn(steps) && Run(c, s, steps).Some? ensures !BackAtAccept(Run(c, s, steps).value, t) {
        StuckForEver(c, s, steps, t);
      }
    } else {
      var steps, s' := SomeQuietRun(c, s);
      OwnRunKeepsConnections(c, s, steps);
      RestingAcceptor(c, s', t);
      if StuckIn(c, s', t) {
        StuckAllAlong(c, s, steps, t);
      }
      assert BackAtAccept(s', t);
    }
  }

  predicate BackAtAccept(s: State, t: nat) {
    t < |s.threads| && s.threads[t].Accepting?
  }

  lemma RestingAcceptor(c: Config, s: State, t: nat)
    requires Sane(c) && Reachable(c, s) && Quiet(c, s) && t < c.acceptors
    requires forall n :: 0 <= n < |s.world.conns| ==> !Kills(c.fs, s.world.conns[n])
    ensures BackAtAccept(s, t) || StuckIn(c, s, t)
  {
    InvReachable(c, s);
    QuietHasServed(c, s);
    QuietIsAtRest(c, s);
    assert s.threads[t].OfAcceptor();
  }
}
