/** No wake-up is lost: single signals, spurious wake-ups and late-coming threads
    notwithstanding, the server never ends up with everybody asleep. */
module WakeUps {
  import opened Requests
  import opened Folds
  import opened RequestHandling
  import opened Descriptors
  import opened ServerModel
  import opened Linearisation

  datatype Kind = SleepingWorker | WokenWorker | SleepingPutter | WokenPutter

  function Is(pc: Pc, k: Kind): nat {
    match k
    case SleepingWorker => if pc.GetAsleep? then 1 else 0
    case WokenWorker => if pc.GetWoken? then 1 else 0
    case SleepingPutter => if pc.PutAsleep? then 1 else 0
    case WokenPutter => if pc.PutWoken? then 1 else 0
  }

  function OfKind(k: Kind): Pc -> nat {
    pc => Is(pc, k)
  }

  /** How many threads are of a kind. */
  function Tally(ts: seq<Pc>, k: Kind): nat {
    Count(OfKind(k), ts)
  }

  /** The holder is about to take an entry, or has put one and not yet signalled. */
  function WorkerCredit(pc: Pc): nat {
    if pc.GetTesting? || pc.FifoLoading? || pc.FifoAdvancing? || pc.SffScanning? || pc.SffShifting?
       || pc.GetCounting? || pc.PutSignalling? then 1 else 0
  }

  /** The holder is about to fill a slot, or has freed one and not yet signalled. */
  function PutterCredit(pc: Pc): nat {
    if pc.PutTesting? || pc.PutStoring? || pc.PutAdvancing? || pc.PutCounting? || pc.GetSignalling? then 1 else 0
  }

  function Holder(s: State): Pc
    requires s.mutex.Some? ==> s.mutex.value < |s.threads|
  {
    if s.mutex.Some? then s.threads[s.mutex.value] else Accepting
  }

  /** While a worker sleeps, every queued entry has a woken worker on its way to it;
      while a putter sleeps, every free slot has a woken putter on its way to it. */
  ghost predicate WakeInv(c: Config, s: State) {
    && (s.mutex.Some? ==> s.mutex.value < |s.threads|)
    && (Tally(s.threads, SleepingWorker) > 0 ==>
          s.ring.count <= Tally(s.threads, WokenWorker) + WorkerCredit(Holder(s)))
    && (Tally(s.threads, SleepingPutter) > 0 ==>
          c.cap - s.ring.count <= Tally(s.threads, WokenPutter) + PutterCredit(Holder(s)))
  }

  lemma Tallies(ts: seq<Pc>, t: nat, pc: Pc)
    requires t < |ts|
    ensures forall k :: Tally(ts[t := pc], k) + Is(ts[t], k) == Tally(ts, k) + Is(pc, k)
  {
    forall k ensures Tally(ts[t := pc], k) + Is(ts[t], k) == Tally(ts, k) + Is(pc, k) {
      CountUpdate(OfKind(k), ts, t, pc);
    }
  }

  /** What one thread's step does to the four numbers of the invariant. */
  ghost predicate Balanced(c: Config, s: State, t: nat, e: Effect)
    requires t < |s.threads|
  {
    var pc := s.threads[t];
    var count, count' := s.ring.count, e.ring.count;
    // entries against woken workers
    && (Is(e.pc, SleepingWorker) > Is(pc, SleepingWorker) ==> count' == 0)
    && (count' + Is(pc, WokenWorker) + (if pc.InCritical() then WorkerCredit(pc) else 0)
        <= count + Is(e.pc, WokenWorker) + (if e.pc.InCritical() then WorkerCredit(e.pc) else 0)
        || count' == 0)
    // free slots against woken putters
    && (Is(e.pc, SleepingPutter) > Is(pc, SleepingPutter) ==> count' == c.cap)
    && (count + Is(pc, WokenPutter) + (if pc.InCritical() then PutterCredit(pc) else 0)
        <= count' + Is(e.pc, WokenPutter) + (if e.pc.InCritical() then PutterCredit(e.pc) else 0)
        || count' == c.cap)
  }

  lemma PutBalanced(c: Config, s: State, t: nat)
    requires t < |s.threads| && c.cap >= 1 && PutMove(c, s, t).Some?
    ensures Balanced(c, s, t, PutMove(c, s, t).value)
  {
  }

  lemma GetBalanced(c: Config, s: State, t: nat)
    requires t < |s.threads| && c.cap >= 1 && GetMove(c, s, t).Some?
    ensures Balanced(c, s, t, GetMove(c, s, t).value)
  {
  }

  lemma ParsingBalanced(c: Config, s: State, t: nat)
    requires t < |s.threads| && AcceptorMove(c, s, t).Some?
    ensures Balanced(c, s, t, AcceptorMove(c, s, t).value)
  {
    if s.threads[t].Parsing? {
      var fd := s.threads[t].fd;
      DecidedBalanced(c, s, t, ParseOutcome(c.fs, s.world.conns[s.world.open[fd]], fd));
    }
  }

  lemma DecidedBalanced(c: Config, s: State, t: nat, p: Parsed)
    requires t < |s.threads| && s.threads[t].Parsing? && Decided(c, s, s.threads[t].fd, p).Some?
    ensures Balanced(c, s, t, Decided(c, s, s.threads[t].fd, p).value)
  {
    if p.Rejected? {
      RefusingBalanced(c, s, t, Writes(c.fs, Refused(p.cause, p.why)));
    }
  }

  lemma RefusingBalanced(c: Config, s: State, t: nat, todo: seq<string>)
    requires t < |s.threads| && s.threads[t].Parsing?
    ensures Balanced(c, s, t, Goto(s, Refusing(s.threads[t].fd, todo)))
  {
  }

  lemma ServingBalanced(c: Config, s: State, t: nat)
    requires t < |s.threads| && ServeMove(c, s, t).Some?
    ensures Balanced(c, s, t, ServeMove(c, s, t).value)
  {
  }

  lemma WakeInvAfter(c: Config, s: State, t: nat, e: Effect)
    requires LockInv(c, s) && WakeInv(c, s) && t < |s.threads|
    requires RespectsTheLock(s, t, e) && Balanced(c, s, t, e)
    ensures WakeInv(c, After(s, t, e))
  {
    Tallies(s.threads, t, e.pc);
  }

  lemma WakeInvMove(c: Config, s: State, t: nat)
    requires c.cap >= 1 && LockInv(c, s) && WakeInv(c, s) && t < |s.threads| && Move(c, s, t).Some?
    ensures WakeInv(c, After(s, t, Move(c, s, t).value))
  {
    var pc := s.threads[t];
    MoveRespectsTheLock(c, s, t);
    if pc.Parsing? || pc.Refusing? {
      ParsingBalanced(c, s, t);
    } else if pc.Serving? || pc.Sending? {
      ServingBalanced(c, s, t);
    } else if pc.OfAcceptor() {
      PutBalanced(c, s, t);
    } else {
      GetBalanced(c, s, t);
    }
    WakeInvAfter(c, s, t, Move(c, s, t).value);
  }

  /** A signal pays the signaller's debt with the thread it wakes. */
  lemma WakeInvSignal(c: Config, s: State, t: nat, wakee: nat)
    requires LockInv(c, s) && WakeInv(c, s) && t < |s.threads|
    requires wakee < |s.threads| && Hears(s.threads[t], s.threads[wakee])
    ensures WakeInv(c, s.(threads := s.threads[t := Signalled(s.threads[t])][wakee := Woken(s.threads[wakee])]))
  {
    assert s.mutex == Some(t);
    TalliesAfterSignal(s.threads, t, wakee);
  }

  lemma TalliesAfterSignal(ts: seq<Pc>, t: nat, wakee: nat)
    requires t < |ts| && wakee < |ts| && Hears(ts[t], ts[wakee])
    ensures var ts' := ts[t := Signalled(ts[t])][wakee := Woken(ts[wakee])];
            && ts'[t] == Signalled(ts[t])
            && forall k :: Tally(ts', k) + Is(ts[wakee], k) == Tally(ts, k) + Is(Woken(ts[wakee]), k)
  {
    Tallies(ts, t, Signalled(ts[t]));
    Tallies(ts[t := Signalled(ts[t])], wakee, Woken(ts[wakee]));
  }

  /** A signal that nobody hears leaves nobody to be waited for. */
  lemma WakeInvSignalNobody(c: Config, s: State, t: nat)
    requires LockInv(c, s) && WakeInv(c, s) && t < |s.threads|
    requires s.threads[t].PutSignalling? || s.threads[t].GetSignalling?
    requires forall k :: 0 <= k < |s.threads| ==> !Hears(s.threads[t], s.threads[k])
    ensures WakeInv(c, After(s, t, Goto(s, Signalled(s.threads[t]))))
  {
    var pc := s.threads[t];
    assert s.mutex == Some(t);
    Tallies(s.threads, t, Signalled(pc));
    CountNone(OfKind(if pc.PutSignalling? then SleepingWorker else SleepingPutter), s.threads);
  }

  lemma WakeInvSpurious(c: Config, s: State, t: nat)
    requires LockInv(c, s) && WakeInv(c, s) && t < |s.threads|
    requires s.threads[t].GetAsleep? || s.threads[t].PutAsleep?
    ensures WakeInv(c, After(s, t, Goto(s, Woken(s.threads[t]))))
  {
    Tallies(s.threads, t, Woken(s.threads[t]));
    assert s.mutex != Some(t);
  }

  lemma WakeInvAccept(c: Config, s: State, t: nat, fd: int, w: World)
    requires LockInv(c, s) && WakeInv(c, s) && t < |s.threads| && s.threads[t].Accepting?
    ensures WakeInv(c, After(s, t, Access(s, Parsing(fd), w)))
  {
    Tallies(s.threads, t, Parsing(fd));
    assert s.mutex != Some(t);
  }

  lemma WakeInvStep(c: Config, s: State, step: Step)
    requires c.cap >= 1 && LockInv(c, s) && WakeInv(c, s) && Take(c, s, step).Some?
    ensures WakeInv(c, Take(c, s, step).value)
  {
    match step
    case Act(t) => WakeInvMove(c, s, t);
    case Accept(t, fd, conn) => WakeInvAccept(c, s, t, fd, AcceptOn(s.world, fd, conn));
    case Signal(t, wakee) => WakeInvSignal(c, s, t, wakee);
    case SignalNobody(t) => WakeInvSignalNobody(c, s, t);
    case Spurious(t) => WakeInvSpurious(c, s, t);
  }

  // ---- What the invariant is for ----

  predicate Asleep(pc: Pc) {
    pc.GetAsleep? || pc.PutAsleep?
  }

  /** When the mutex is free, each queued entry has a woken worker of its own coming
      for it, or no worker sleeps at all; and likewise for free slots and putters. */
  lemma NoLostWakeUp(c: Config, s: State)
    requires LockInv(c, s) && WakeInv(c, s) && s.mutex.None?
    ensures (exists t :: 0 <= t < |s.threads| && s.threads[t].GetAsleep?)
            ==> s.ring.count <= Tally(s.threads, WokenWorker)
    ensures (exists t :: 0 <= t < |s.threads| && s.threads[t].PutAsleep?)
            ==> c.cap - s.ring.count <= Tally(s.threads, WokenPutter)
  {
    if t :| 0 <= t < |s.threads| && s.threads[t].GetAsleep? {
      CountAtLeast(OfKind(SleepingWorker), s.threads, t);
    }
    if t :| 0 <= t < |s.threads| && s.threads[t].PutAsleep? {
      CountAtLeast(OfKind(SleepingPutter), s.threads, t);
    }
  }

  /** The acceptors and the workers are never all asleep. */
  lemma NeverAllAsleep(c: Config, s: State)
    requires Sane(c) && LockInv(c, s) && WakeInv(c, s)
    ensures exists t :: 0 <= t < |s.threads| && !Asleep(s.threads[t])
  {
    if forall t :: 0 <= t < |s.threads| ==> Asleep(s.threads[t]) {
      assert s.threads[0].PutAsleep? && s.threads[c.acceptors].GetAsleep?;
      assert s.mutex.None?;
      NoLostWakeUp(c, s);
      CountNone(OfKind(WokenWorker), s.threads);
      CountNone(OfKind(WokenPutter), s.threads);
      assert false;
    }
  }

  /** A request in the buffer is never left behind: with the mutex free and the
      buffer not empty, some worker is awake. */
  lemma SomeWorkerAwake(c: Config, s: State) returns (t: nat)
    requires Sane(c) && LockInv(c, s) && WakeInv(c, s) && s.mutex.None? && s.ring.count > 0
    ensures c.acceptors <= t < |s.threads| && !s.threads[t].GetAsleep?
  {
    t := c.acceptors;
    if s.threads[t].GetAsleep? {
      NoLostWakeUp(c, s);
      t := CountSome(OfKind(WokenWorker), s.threads);
    }
  }

  /** A free slot is never left behind: with the mutex free and the buffer not
      full, some woken putter is on its way if any putter sleeps. */
  lemma SomePutterAwake(c: Config, s: State, sleeper: nat) returns (t: nat)
    requires Sane(c) && LockInv(c, s) && WakeInv(c, s) && s.mutex.None? && s.ring.count < c.cap
    requires sleeper < |s.threads| && s.threads[sleeper].PutAsleep?
    ensures t < |s.threads| && s.threads[t].PutWoken?
  {
    NoLostWakeUp(c, s);
    t := CountSome(OfKind(WokenPutter), s.threads);
  }
}
