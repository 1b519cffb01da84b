/** The theorems about every run of the concurrent server. */
module ServerTheorems {
  import opened Requests
  import opened Folds
  import opened BoundedQueue
  import opened RingLayout
  import opened RequestHandling
  import opened Descriptors
  import opened ServerModel
  import opened Linearisation
  import opened WakeUps
  import opened Ownership
  import opened Responses

  ghost predicate Inv(c: Config, s: State) {
    && LockInv(c, s)
    && RingInv(c, s)
    && WakeInv(c, s)
    && OwnInv(c, s)
    && ConnInv(c, s)
    && (c.policy.Sff? ==> s.ring.head == 0)
  }

  lemma NothingHeldAtFirst(ts: seq<Pc>)
    requires forall t :: 0 <= t < |ts| ==> ts[t].Accepting? || ts[t].GetLocking?
    ensures Busy(ts) == 0 && forall fd :: Holders(ts, fd) == 0
  {
    CountNone(HoldsAny(), ts);
    forall fd ensures Holders(ts, fd) == 0 {
      CountNone(HoldsIt(fd), ts);
    }
  }

  lemma NobodySleepsAtFirst(ts: seq<Pc>)
    requires forall t :: 0 <= t < |ts| ==> ts[t].Accepting? || ts[t].GetLocking?
    ensures Tally(ts, SleepingWorker) == Tally(ts, SleepingPutter) == 0
  {
    CountNone(OfKind(SleepingWorker), ts);
    CountNone(OfKind(SleepingPutter), ts);
  }

  lemma InvAtFirst(c: Config, s: State)
    requires c.cap >= 1 && Init(c, s)
    ensures Inv(c, s)
  {
    RingAtFirst(c, s);
    NobodySleepsAtFirst(s.threads);
    NothingHeldAtFirst(s.threads);
  }

  lemma RingAtFirst(c: Config, s: State)
    requires c.cap >= 1 && Init(c, s)
    ensures LockInv(c, s) && RingInv(c, s) && Queue(c, s) == []
  {
    assert Live(s.ring.slots, 0, 0) == [];
  }

  lemma InvStep(c: Config, s: State, step: Step)
    requires c.cap >= 1 && Inv(c, s) && Take(c, s, step).Some?
    ensures Inv(c, Take(c, s, step).value)
  {
    LockInvStep(c, s, step);
    RingInvStep(c, s, step);
    WakeInvStep(c, s, step);
    OwnInvStep(c, s, step);
    ConnInvStep(c, s, step);
    if c.policy.Sff? {
      SffHeadStays(c, s, step);
    }
  }

  lemma {:induction false} InvRun(c: Config, s: State, steps: seq<Step>)
    requires c.cap >= 1 && Inv(c, s) && Run(c, s, steps).Some?
    ensures Inv(c, Run(c, s, steps).value)
    decreases |steps|
  {
    if steps != [] {
      InvStep(c, s, steps[0]);
      InvRun(c, Take(c, s, steps[0]).value, steps[1..]);
    }
  }

  lemma InvReachable(c: Config, s: State)
    requires c.cap >= 1 && Reachable(c, s)
    ensures Inv(c, s)
  {
    var s0, steps :| Init(c, s0) && Run(c, s0, steps) == Some(s);
    InvAtFirst(c, s0);
    InvRun(c, s0, steps);
  }

  // ---- Mutual exclusion and linearisation ----

  /** At most one thread is between its lock and its unlock. */
  lemma MutualExclusion(c: Config, s: State, t: nat, u: nat)
    requires c.cap >= 1 && Reachable(c, s) && t < |s.threads| && u < |s.threads|
    requires s.threads[t].InCritical() && s.threads[u].InCritical()
    ensures t == u
  {
    InvReachable(c, s);
  }

  /** The completed puts and gets, in mutex order, are a run of the abstract
      bounded queue under the policy, and whenever the mutex is free the ring holds
      exactly that queue. */
  lemma BufferIsLinearisable(c: Config, s: State)
    requires c.cap >= 1 && Reachable(c, s)
    ensures Replay(c.policy, c.cap, [], s.log).Some?
    ensures var q := Replay(c.policy, c.cap, [], s.log).value;
            && |q| <= c.cap
            && (s.mutex.None? ==>
                  Shape(s.ring.slots, s.ring.head, s.ring.count) && Live(s.ring.slots, s.ring.head, s.ring.count) == q)
    ensures multiset(Ins(s.log)) == multiset(Outs(s.log)) + multiset(Replay(c.policy, c.cap, [], s.log).value)
  {
    InvReachable(c, s);
    Conservation(c.policy, c.cap, [], s.log);
    assert multiset([]) + multiset(Ins(s.log)) == multiset(Ins(s.log));
  }

  /** In every SFF run, whenever the mutex is free, the live entries are the first
      count slots in arrival order, and tail follows them. */
  lemma SffRingLayout(c: Config, s: State)
    requires c.cap >= 1 && c.policy.Sff? && Reachable(c, s) && s.mutex.None?
    ensures Replay(c.policy, c.cap, [], s.log).Some? && 0 <= s.ring.count <= |s.ring.slots|
    ensures s.ring.head == 0 && s.ring.tail == s.ring.count % c.cap
    ensures s.ring.slots[..s.ring.count] == Replay(c.policy, c.cap, [], s.log).value
  {
    InvReachable(c, s);
    LayoutFromZero(c, s.ring, Queue(c, s));
  }

  lemma RunsFromEmptyKeepOrder(policy: Policy, cap: nat, log: seq<Event>, size: int)
    requires Replay(policy, cap, [], log).Some?
    ensures policy.Fifo? ==> Outs(log) <= Ins(log)
    ensures OfSize(Outs(log), size) <= OfSize(Ins(log), size)
  {
    PerSizeOrder(policy, cap, [], log, size);
    assert [] + OfSize(Ins(log), size) == OfSize(Ins(log), size);
    if policy.Fifo? {
      FifoOrder(cap, [], log);
      assert [] + Ins(log) == Ins(log);
    }
  }

  /** However the threads interleave, FIFO hands requests to the workers in the
      order in which they were put, and SFF does so within each file size. */
  lemma WorkersGetRequestsInOrder(c: Config, s: State, size: int)
    requires c.cap >= 1 && Reachable(c, s)
    ensures c.policy.Fifo? ==> Outs(s.log) <= Ins(s.log)
    ensures OfSize(Outs(s.log), size) <= OfSize(Ins(s.log), size)
  {
    InvReachable(c, s);
    RunsFromEmptyKeepOrder(c.policy, c.cap, s.log, size);
  }

  lemma FifoKeepsAtMostCap(cap: nat, log: seq<Event>, i: nat)
    requires Replay(Fifo, cap, [], log).Some? && i + cap < |Ins(log)|
    ensures i < |Outs(log)| && Outs(log)[i] == Ins(log)[i]
  {
    FifoOrder(cap, [], log);
    Conservation(Fifo, cap, [], log);
    assert [] + Ins(log) == Ins(log);
  }

  /** However the threads interleave, under FIFO a request has been handed to a worker
      by the time that cap more have been put. */
  lemma FifoPutsOvertakeNobody(c: Config, s: State, i: nat)
    requires c.cap >= 1 && c.policy.Fifo? && Reachable(c, s) && i + c.cap < |Ins(s.log)|
    ensures i < |Outs(s.log)| && Outs(s.log)[i] == Ins(s.log)[i]
  {
    InvReachable(c, s);
    FifoKeepsAtMostCap(c.cap, s.log, i);
  }

  // ---- No lost wake-up ----

  /** Never are all threads asleep; and with the mutex free, a request in the buffer
      leaves some worker awake and a free slot leaves some putter awake. */
  lemma NobodyIsForgotten(c: Config, s: State)
    requires Sane(c) && Reachable(c, s)
    ensures exists t :: 0 <= t < |s.threads| && !Asleep(s.threads[t])
    ensures s.mutex.None? && s.ring.count > 0 ==>
              exists t :: c.acceptors <= t < |s.threads| && !Asleep(s.threads[t])
    ensures s.mutex.None? && s.ring.count < c.cap && (exists t :: 0 <= t < |s.threads| && s.threads[t].PutAsleep?) ==>
              exists t :: 0 <= t < |s.threads| && s.threads[t].PutWoken?
  {
    InvReachable(c, s);
    NeverAllAsleep(c, s);
    if s.mutex.None? && s.ring.count > 0 {
      var t := SomeWorkerAwake(c, s);
      assert !Asleep(s.threads[t]);
    }
    if s.mutex.None? && s.ring.count < c.cap {
      if sleeper :| 0 <= sleeper < |s.threads| && s.threads[sleeper].PutAsleep? {
        var t := SomePutterAwake(c, s, sleeper);
      }
    }
  }

  /** With the mutex free: if any worker sleeps, every queued request has a woken
      worker of its own on the way; if any putter sleeps, every free slot has a woken
      putter. */
  lemma EveryRequestHasAWakeUp(c: Config, s: State)
    requires c.cap >= 1 && Reachable(c, s) && s.mutex.None?
    ensures (exists t :: 0 <= t < |s.threads| && s.threads[t].GetAsleep?)
            ==> s.ring.count <= Tally(s.threads, WokenWorker)
    ensures (exists t :: 0 <= t < |s.threads| && s.threads[t].PutAsleep?)
            ==> c.cap - s.ring.count <= Tally(s.threads, WokenPutter)
  {
    InvReachable(c, s);
    NoLostWakeUp(c, s);
  }

  // ---- Descriptors ----

  /** Each open descriptor is in exactly one pair of hands, each closed or unused
      number in none. */
  lemma OneOwnerPerDescriptor(c: Config, s: State, fd: int)
    requires c.cap >= 1 && Reachable(c, s)
    ensures Replay(c.policy, c.cap, [], s.log).Some?
    ensures Holders(s.threads, fd) + Carriers(Replay(c.policy, c.cap, [], s.log).value, fd) ==
            if fd in s.world.open then 1 else 0
  {
    InvReachable(c, s);
  }

  /** Every connection is closed at most once, and a thread only ever parses, writes
      to or closes a descriptor that is open: the process fails only in serving a
      file that cannot be mapped, which some accepted connection asked for. */
  lemma ClosedOnceAndNeverUsedAgain(c: Config, s: State, n: nat)
    requires c.cap >= 1 && Reachable(c, s) && n < |s.world.conns|
    ensures Shaped(s.world) && s.world.closes[n] <= 1
    ensures s.world.closes[n] == 0 <==> IsOpen(s.world, n)
    ensures forall t :: 0 <= t < |s.threads| && Token(s.threads[t]).Some? ==>
              Token(s.threads[t]).value in s.world.open
    ensures s.world.failed ==> exists m :: 0 <= m < |s.world.conns| && Kills(c.fs, s.world.conns[m])
  {
    InvReachable(c, s);
    forall t | 0 <= t < |s.threads| && Token(s.threads[t]).Some?
      ensures Token(s.threads[t]).value in s.world.open
    {
      HeldIsOpen(c, s, t, Token(s.threads[t]).value);
    }
    if s.world.failed {
      SomeoneKills(c.fs, s.world.conns);
    }
    if IsOpen(s.world, n) {
      var fd :| fd in s.world.open && s.world.open[fd] == n;
    }
  }

  lemma SomeoneKills(fs: FileSystem, conns: seq<Conn>)
    ensures SomeoneDies(Ledger(fs, conns)) <==> exists m :: 0 <= m < |conns| && Kills(fs, conns[m])
  {
    var l := Ledger(fs, conns);
    forall m | 0 <= m < |conns| ensures l[m].dies <==> Kills(fs, conns[m]) {
      DiesIff(fs, conns[m], 0);
    }
    if m :| 0 <= m < |conns| && Kills(fs, conns[m]) {
      assert l[m].dies;
    }
  }

  /** Every connection accepted is closed once or still in the hands of a thread or
      of a buffer entry; so at most one per thread and per slot is open. */
  lemma ConnectionsAreConserved(c: Config, s: State)
    requires c.cap >= 1 && Reachable(c, s)
    ensures Replay(c.policy, c.cap, [], s.log).Some?
    ensures |s.world.conns| ==
            Sum(s.world.closes) + Busy(s.threads) + |Replay(c.policy, c.cap, [], s.log).value|
    ensures |s.world.open| <= c.acceptors + c.workers + c.cap
  {
    InvReachable(c, s);
    OpenBound(c, s);
  }

  // ---- The concurrent server refines the sequential one ----

  /** Where a connection can be: refused and closed by the acceptor, served and
      closed by a worker, in the hands of an acceptor, in a buffer entry, or in the
      hands of a worker. */
  datatype Place = TurnedAway | Completed | InHand(t: nat) | Queued(k: nat) | InService(t: nat)

  /** Descriptor fd, if there is one, stands for connection n. */
  predicate StandsFor(w: World, fd: Option<int>, n: nat) {
    fd.Some? && fd.value in w.open && w.open[fd.value] == n
  }

  ghost predicate IsAt(c: Config, s: State, n: nat, place: Place)
    requires n < |s.world.conns| && Shaped(s.world)
    requires c.cap >= 1 && Replay(c.policy, c.cap, [], s.log).Some?
  {
    match place
    case TurnedAway => s.world.closes[n] == 1 && ParseOutcome(c.fs, s.world.conns[n], 0).Rejected?
    case Completed => s.world.closes[n] == 1 && ParseOutcome(c.fs, s.world.conns[n], 0).Ready?
    case InHand(t) => t < c.acceptors && t < |s.threads| && StandsFor(s.world, Token(s.threads[t]), n)
    case Queued(k) => k < |Queue(c, s)| && StandsFor(s.world, Some(Queue(c, s)[k].connFd), n)
    case InService(t) => c.acceptors <= t < |s.threads| && StandsFor(s.world, Token(s.threads[t]), n)
  }

  lemma ThePlace(c: Config, s: State, n: nat) returns (place: Place)
    requires Inv(c, s) && n < |s.world.conns|
    ensures IsAt(c, s, n, place)
  {
    if fd :| fd in s.world.open && s.world.open[fd] == n {
      OpenIsHeld(c, s, fd);
      if t :| 0 <= t < |s.threads| && Token(s.threads[t]) == Some(fd) {
        place := if t < c.acceptors then InHand(t) else InService(t);
      } else {
        var k :| 0 <= k < |Queue(c, s)| && Queue(c, s)[k].connFd == fd;
        place := Queued(k);
      }
    } else {
      assert Finished(Ledger(c.fs, s.world.conns), s.world, n);
      place := if ParseOutcome(c.fs, s.world.conns[n], 0).Rejected? then TurnedAway else Completed;
    }
  }

  /** The descriptor that is kept there. */
  function KeptAt(c: Config, s: State, place: Place): Option<int>
    requires c.cap >= 1 && Replay(c.policy, c.cap, [], s.log).Some?
  {
    match place
    case InHand(t) => if t < |s.threads| then Token(s.threads[t]) else None
    case InService(t) => if t < |s.threads| then Token(s.threads[t]) else None
    case Queued(k) => if k < |Queue(c, s)| then Some(Queue(c, s)[k].connFd) else None
    case _ => None
  }

  lemma KeptInOnePlace(c: Config, s: State, fd: int, p: Place, q: Place)
    requires OwnInv(c, s) && KeptAt(c, s, p) == KeptAt(c, s, q) == Some(fd)
    ensures p.Queued? <==> q.Queued?
    ensures if p.Queued? then p.k == q.k else p.t == q.t
  {
    if p.Queued? && q.Queued? {
      if p.k != q.k {
        QueueHoldsDifferentDescriptors(c, s, if p.k < q.k then p.k else q.k, if p.k < q.k then q.k else p.k);
      }
    } else if p.Queued? {
      ThreadAndQueueHoldDifferentDescriptors(c, s, q.t, p.k, fd);
    } else if q.Queued? {
      ThreadAndQueueHoldDifferentDescriptors(c, s, p.t, q.k, fd);
    } else if p.t != q.t {
      ThreadsHoldDifferentDescriptors(c, s, p.t, q.t, fd);
    }
  }

  predicate IsOver(place: Place) {
    place.TurnedAway? || place.Completed?
  }

  /** In a place where it is not over, its descriptor is kept, and it has not been
      closed. */
  lemma KeptWhereItIs(c: Config, s: State, l: seq<Entry>, n: nat, place: Place)
    requires c.cap >= 1 && Replay(c.policy, c.cap, [], s.log).Some? && TableOk(l, s.world)
    requires n < |s.world.conns| && IsAt(c, s, n, place)
    ensures IsOver(place) <==> s.world.closes[n] == 1
    ensures !IsOver(place) ==> StandsFor(s.world, KeptAt(c, s, place), n)
  {
  }

  lemma SameDescriptor(l: seq<Entry>, w: World, f: Option<int>, g: Option<int>, n: nat)
    requires TableOk(l, w) && StandsFor(w, f, n) && StandsFor(w, g, n)
    ensures f == g
  {
    var a, b := f.value, g.value;
    assert w.open[a] == w.open[b] && TableOk(l, w);
    assert a == b;
    assert f == Some(a) && g == Some(b);
  }

  lemma OnlyPlace(c: Config, s: State, l: seq<Entry>, n: nat, p: Place, q: Place)
    requires OwnInv(c, s) && TableOk(l, s.world) && n < |s.world.conns|
    requires IsAt(c, s, n, p) && IsAt(c, s, n, q)
    ensures p == q
  {
    KeptWhereItIs(c, s, l, n, p);
    KeptWhereItIs(c, s, l, n, q);
    if !IsOver(p) {
      SameDescriptor(l, s.world, KeptAt(c, s, p), KeptAt(c, s, q), n);
      KeptInOnePlace(c, s, KeptAt(c, s, p).value, p, q);
    }
    KindsDiffer(c, s, n, p, q);
  }

  lemma KindsDiffer(c: Config, s: State, n: nat, p: Place, q: Place)
    requires n < |s.world.conns| && Shaped(s.world) && c.cap >= 1 && Replay(c.policy, c.cap, [], s.log).Some?
    requires IsAt(c, s, n, p) && IsAt(c, s, n, q) && (IsOver(p) <==> IsOver(q)) && (p.Queued? <==> q.Queued?)
    requires !IsOver(p) ==> if p.Queued? then p.k == q.k else p.t == q.t
    ensures p == q
  {
  }

  /** Conservation, connection by connection: each one accepted is rejected,
      completed, in one acceptor's hands, in one buffer entry or in one worker's
      hands, and in one of these places only. */
  lemma EachConnectionIsInOnePlace(c: Config, s: State, n: nat) returns (place: Place)
    requires c.cap >= 1 && Reachable(c, s) && n < |s.world.conns|
    ensures Shaped(s.world) && Replay(c.policy, c.cap, [], s.log).Some?
    ensures IsAt(c, s, n, place)
    ensures forall p :: IsAt(c, s, n, p) ==> p == place
  {
    InvReachable(c, s);
    place := ThePlace(c, s, n);
    forall p | IsAt(c, s, n, p) ensures p == place {
      OnlyPlace(c, s, Ledger(c.fs, s.world.conns), n, p, place);
    }
  }

  lemma LedgerIsSequential(fs: FileSystem, conns: seq<Conn>, n: nat)
    requires n < |conns| && FitsArrays(fs, conns[n])
    ensures Ledger(fs, conns)[n].owed == SequentialBytes(fs, conns[n])
  {
    PipelineIsSequential(fs, conns[n], 0);
  }

  /** Whatever the policy and the interleaving, a finished connection has been
      closed once and has got exactly the bytes that the sequential server would
      have written to it. */
  lemma ConcurrentRefinesSequential(c: Config, s: State, n: nat)
    requires c.cap >= 1 && Reachable(c, s) && n < |s.world.conns|
    requires !IsOpen(s.world, n) && FitsArrays(c.fs, s.world.conns[n])
    ensures Shaped(s.world) && s.world.closes[n] == 1
    ensures SequentialBytes(c.fs, s.world.conns[n]) == Some(s.world.output[n])
  {
    InvReachable(c, s);
    LedgerIsSequential(c.fs, s.world.conns, n);
    assert Finished(Ledger(c.fs, s.world.conns), s.world, n);
  }

  /** And while it is open, it has got a beginning of them. */
  lemma OpenConnectionsHaveAPrefix(c: Config, s: State, fd: int)
    requires c.cap >= 1 && Reachable(c, s) && fd in s.world.open
    requires s.world.open[fd] < |s.world.conns| && FitsArrays(c.fs, s.world.conns[s.world.open[fd]])
    ensures Shaped(s.world)
    ensures var bytes := SequentialBytes(c.fs, s.world.conns[s.world.open[fd]]);
            bytes.Some? ==> s.world.output[s.world.open[fd]] <= bytes.value
  {
    InvReachable(c, s);
    var l, n := Ledger(c.fs, s.world.conns), s.world.open[fd];
    LedgerIsSequential(c.fs, s.world.conns, n);
    OpenIsHeld(c, s, fd);
    if t :| 0 <= t < |s.threads| && Token(s.threads[t]) == Some(fd) {
      HolderHasAPrefix(l, s.world, s.threads[t], fd);
    } else {
      var k :| 0 <= k < |Queue(c, s)| && Queue(c, s)[k].connFd == fd;
      assert Prepared(l, s.world, Queue(c, s)[k]);
    }
  }

  lemma HolderHasAPrefix(l: seq<Entry>, w: World, pc: Pc, fd: int)
    requires ThreadOk(l, w, pc) && Token(pc) == Some(fd)
    ensures Fits(l, w) && fd in w.open
    ensures l[w.open[fd]].owed.Some? ==> w.output[w.open[fd]] <= l[w.open[fd]].owed.value
  {
  }
}
