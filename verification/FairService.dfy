/** Service under unending arrivals: in every infinite run in which no thread is
    passed over for ever, the workers go on taking requests as long as there are
    any; so under FIFO every request that is put is taken. */
module FairService {
  import opened Requests
  import opened BoundedQueue
  import opened ServerModel
  import opened Linearisation
  import opened WakeUps
  import opened Responses
  import opened ServerTheorems
  import opened Draining

  // ---- Infinite runs and fairness ----

  ghost predicate IsRun(c: Config, run: nat -> State, steps: nat -> Step)
    requires c.cap >= 1
  {
    Init(c, run(0)) && forall i: nat :: Take(c, run(i), steps(i)) == Some(run(i + 1))
  }

  /** Thread t can take a step of its own. */
  ghost predicate CanGo(c: Config, s: State, t: nat)
    requires c.cap >= 1
  {
    exists step :: IsOwn(step) && step.t == t && Take(c, s, step).Some?
  }

  ghost predicate GoesAt(steps: nat -> Step, t: nat, j: nat) {
    steps(j).t == t && IsOwn(steps(j))
  }

  ghost predicate CanGoLater(c: Config, run: nat -> State, t: nat, i: nat)
    requires c.cap >= 1
  {
    exists j: nat :: i <= j && CanGo(c, run(j), t)
  }

  ghost predicate GoesLater(steps: nat -> Step, t: nat, i: nat) {
    exists j: nat :: i <= j && GoesAt(steps, t, j)
  }

  ghost predicate CanGoAgain(c: Config, run: nat -> State, t: nat)
    requires c.cap >= 1
  {
    forall i: nat :: CanGoLater(c, run, t, i)
  }

  ghost predicate GoesAgain(steps: nat -> Step, t: nat) {
    forall i: nat :: GoesLater(steps, t, i)
  }

  /** A thread that can go again and again does go again and again. */
  ghost predicate Fair(c: Config, run: nat -> State, steps: nat -> Step)
    requires c.cap >= 1
  {
    forall t: nat :: CanGoAgain(c, run, t) ==> GoesAgain(steps, t)
  }

  // ---- Single steps ----

  lemma {:induction false} InvAt(c: Config, run: nat -> State, steps: nat -> Step, i: nat)
    requires c.cap >= 1 && IsRun(c, run, steps)
    ensures Reachable(c, run(i)) && !run(i).world.failed
  {
    if i == 0 {
      assert Run(c, run(0), []) == Some(run(0));
    } else {
      InvAt(c, run, steps, i - 1);
      assert Take(c, run(i - 1), steps(i - 1)) == Some(run(i));
      ReachableNext(c, run(i - 1), steps(i - 1));
    }
    assert Take(c, run(i), steps(i)) == Some(run(i + 1));
  }

  lemma {:induction false} OutsConcat(a: seq<Event>, b: seq<Event>)
    ensures Outs(a + b) == Outs(a) + Outs(b)
    decreases |a|
  {
    if a == [] {
      assert a + b == b;
    } else {
      assert (a + b)[1..] == a[1..] + b;
      OutsConcat(a[1..], b);
    }
  }

  /** How many requests have been taken. */
  function Taken(s: State): nat {
    |Outs(s.log)|
  }

  /** What thread t has still to do with what it has in its hands. */
  function Left(c: Config, s: State, t: nat): nat
    requires c.cap >= 1 && t < |s.threads|
  {
    Weight(c.cap, s.threads[t]) + Draining.Rounds(c.cap, s.ring, s.threads[t])
  }

  lemma TakenGrows(c: Config, s: State, step: Step)
    requires c.cap >= 1 && Take(c, s, step).Some?
    ensures Taken(s) <= Taken(Take(c, s, step).value)
  {
    if step.Act? {
      OutsConcat(s.log, Move(c, s, step.t).value.events);
    } else {
      assert s.log + [] == s.log;
    }
  }

  /** A step of thread t that takes no request leaves it less to do. */
  lemma OwnStepGoesOn(c: Config, s: State, step: Step)
    requires LockInv(c, s) && RingInv(c, s) && Take(c, s, step).Some? && IsOwn(step)
    requires Taken(Take(c, s, step).value) == Taken(s) && !Take(c, s, step).value.world.failed
    ensures Left(c, Take(c, s, step).value, step.t) < Left(c, s, step.t)
  {
    var t, s' := step.t, Take(c, s, step).value;
    if step.Act? {
      var e := Move(c, s, t).value;
      MoveLightens(c, s, t);
      OutsConcat(s.log, e.events);
      if e.events != [] {
        assert e.events == [e.events[0]];
        assert Outs(e.events) == Out(e.events[0]) + Outs([]);
      }
    }
  }

  /** Another thread's step leaves a waking thread that is not at accept alone. */
  lemma OtherStepLeavesAlone(c: Config, s: State, step: Step, t: nat)
    requires c.cap >= 1 && LockInv(c, s) && Take(c, s, step).Some? && t < |s.threads|
    requires !(step.t == t && IsOwn(step)) && !Asleep(s.threads[t]) && !s.threads[t].Accepting?
    ensures var s' := Take(c, s, step).value;
            t < |s'.threads| && s'.threads[t] == s.threads[t] && Left(c, s', t) == Left(c, s, t)
  {
    if step.Act? {
      MoveRespectsTheLock(c, s, step.t);
    }
  }

  lemma {:induction false} TakenNeverShrinks(c: Config, run: nat -> State, steps: nat -> Step, i: nat, j: nat)
    requires c.cap >= 1 && IsRun(c, run, steps) && i <= j
    ensures Taken(run(i)) <= Taken(run(j))
    decreases j
  {
    if i < j {
      TakenNeverShrinks(c, run, steps, i, j - 1);
      assert Take(c, run(j - 1), steps(j - 1)) == Some(run(j));
      TakenGrows(c, run(j - 1), steps(j - 1));
    }
  }

  // ---- A run in which no request is taken from some time on ----

  /** From time i on the workers take no more requests. */
  ghost predicate NoneTaken(run: nat -> State, i: nat) {
    forall j: nat :: i <= j ==> Taken(run(j)) == Taken(run(i))
  }

  /** From time i on thread t neither sleeps nor waits for a connection. */
  ghost predicate Busied(run: nat -> State, t: nat, i: nat) {
    forall j: nat :: i <= j ==> t < |run(j).threads| && !Asleep(run(j).threads[t]) && !run(j).threads[t].Accepting?
  }

  lemma BusyStep(c: Config, run: nat -> State, steps: nat -> Step, t: nat, i: nat, j: nat)
    requires c.cap >= 1 && IsRun(c, run, steps) && NoneTaken(run, i) && Busied(run, t, i) && i <= j
    ensures t < |run(j).threads| && t < |run(j + 1).threads|
    ensures Left(c, run(j + 1), t) <= Left(c, run(j), t)
    ensures GoesAt(steps, t, j) ==> Left(c, run(j + 1), t) < Left(c, run(j), t)
    ensures !GoesAt(steps, t, j) ==> run(j + 1).threads[t] == run(j).threads[t]
  {
    InvAt(c, run, steps, j + 1);
    assert Take(c, run(j), steps(j)) == Some(run(j + 1));
    assert LockInv(c, run(j)) && RingInv(c, run(j)) by {
      InvAt(c, run, steps, j);
      InvReachable(c, run(j));
    }
    assert Taken(run(j)) == Taken(run(i)) == Taken(run(j + 1));
    if GoesAt(steps, t, j) {
      OwnStepGoesOn(c, run(j), steps(j));
    } else {
      OtherStepLeavesAlone(c, run(j), steps(j), t);
    }
  }

  lemma {:induction false} Descends(left: nat -> nat, i: nat, j: nat)
    requires i <= j && forall n: nat :: i <= n ==> left(n + 1) <= left(n)
    ensures left(j) <= left(i)
    decreases j
  {
    if i < j {
      Descends(left, i, j - 1);
      assert left(j - 1 + 1) <= left(j - 1);
    }
  }

  /** A thread whose steps use up what is left goes only so often. */
  lemma {:induction false} OnlySoOften(left: nat -> nat, steps: nat -> Step, t: nat, i: nat)
    requires forall n: nat :: i <= n ==> left(n + 1) <= left(n)
    requires forall n: nat :: i <= n && GoesAt(steps, t, n) ==> left(n + 1) < left(n)
    ensures !GoesAgain(steps, t)
    decreases left(i)
  {
    if GoesLater(steps, t, i) {
      var k: nat :| i <= k && GoesAt(steps, t, k);
      Descends(left, i, k);
      assert left(k + 1) < left(k);
      OnlySoOften(left, steps, t, k + 1);
    }
  }

  lemma GoesOnlySoOften(c: Config, run: nat -> State, steps: nat -> Step, t: nat, i: nat)
    requires c.cap >= 1 && IsRun(c, run, steps) && NoneTaken(run, i) && Busied(run, t, i)
    ensures !GoesAgain(steps, t)
  {
    var left: nat -> nat := n => if t < |run(n).threads| then Left(c, run(n), t) else 0;
    forall n: nat | i <= n ensures left(n + 1) <= left(n) && (GoesAt(steps, t, n) ==> left(n + 1) < left(n)) {
      BusyStep(c, run, steps, t, i, n);
    }
    OnlySoOften(left, steps, t, i);
  }

  /** So in a fair run there is a time after which it never can go. */
  lemma StandsStill(c: Config, run: nat -> State, steps: nat -> Step, t: nat, i: nat) returns (k: nat)
    requires c.cap >= 1 && IsRun(c, run, steps) && Fair(c, run, steps) && NoneTaken(run, i) && Busied(run, t, i)
    ensures i <= k && !CanGo(c, run(k), t) && forall j: nat :: k <= j ==> !CanGo(c, run(j), t)
  {
    GoesOnlySoOften(c, run, steps, t, i);
    assert !CanGoAgain(c, run, t);
    var n: nat :| !CanGoLater(c, run, t, n);
    k := if n < i then i else n;
  }

  // ---- The mutex is not held for ever ----

  lemma HolderCanGo(c: Config, s: State, h: nat)
    requires c.cap >= 1 && Reachable(c, s) && !s.world.failed && s.mutex == Some(h)
    ensures CanGo(c, s, h) && h < |s.threads| && s.threads[h].InCritical()
  {
    InvReachable(c, s);
    HolderCanMove(c, s, h);
  }

  /** While nobody lets go of the mutex, its holder stays the same. */
  lemma SameHolder(c: Config, s: State, step: Step, h: nat)
    requires c.cap >= 1 && LockInv(c, s) && Take(c, s, step).Some? && s.mutex == Some(h)
    ensures Take(c, s, step).value.mutex in {None, Some(h)}
  {
    if step.Act? {
      MoveRespectsTheLock(c, s, step.t);
    }
  }

  lemma HeldOneStep(c: Config, run: nat -> State, steps: nat -> Step, j: nat)
    requires c.cap >= 1 && IsRun(c, run, steps) && run(j).mutex.Some?
    ensures run(j + 1).mutex in {None, run(j).mutex}
  {
    assert Take(c, run(j), steps(j)) == Some(run(j + 1));
    assert LockInv(c, run(j)) by {
      InvAt(c, run, steps, j);
      InvReachable(c, run(j));
    }
    SameHolder(c, run(j), steps(j), run(j).mutex.value);
  }

  lemma {:induction false} HeldByOne(c: Config, run: nat -> State, steps: nat -> Step, k: nat, j: nat)
    requires c.cap >= 1 && IsRun(c, run, steps) && k <= j
    requires forall n: nat :: k <= n ==> run(n).mutex.Some?
    ensures run(j).mutex == run(k).mutex
    decreases j
  {
    if k < j {
      HeldByOne(c, run, steps, k, j - 1);
      HeldOneStep(c, run, steps, j - 1);
      assert run(j).mutex.Some?;
    }
  }

  lemma NoneTakenLater(run: nat -> State, i: nat, k: nat)
    requires NoneTaken(run, i) && i <= k
    ensures NoneTaken(run, k)
  {
    forall n: nat | k <= n ensures Taken(run(n)) == Taken(run(k)) {
      assert Taken(run(n)) == Taken(run(i)) == Taken(run(k));
    }
  }

  lemma HeldForEver(c: Config, run: nat -> State, steps: nat -> Step, k: nat, h: nat)
    requires c.cap >= 1 && IsRun(c, run, steps) && run(k).mutex == Some(h)
    requires forall n: nat :: k <= n ==> run(n).mutex.Some?
    ensures Busied(run, h, k) && forall n: nat :: k <= n ==> CanGo(c, run(n), h)
  {
    forall n: nat | k <= n ensures CanGo(c, run(n), h) && h < |run(n).threads| && run(n).threads[h].InCritical() {
      HeldByOne(c, run, steps, k, n);
      InvAt(c, run, steps, n);
      HolderCanGo(c, run(n), h);
    }
  }

  /** In a fair run that takes no more requests the mutex becomes free again and
      again. */
  lemma MutexBecomesFree(c: Config, run: nat -> State, steps: nat -> Step, i: nat, k: nat) returns (j: nat)
    requires c.cap >= 1 && IsRun(c, run, steps) && Fair(c, run, steps) && NoneTaken(run, i) && i <= k
    ensures k <= j && run(j).mutex.None?
  {
    NoneTakenLater(run, i, k);
    if forall n: nat :: k <= n ==> run(n).mutex.Some? {
      var h := run(k).mutex.value;
      HeldForEver(c, run, steps, k, h);
      var m := StandsStill(c, run, steps, h, k);
      assert false;
    }
    j :| k <= j && run(j).mutex.None?;
  }

  // ---- The workers ----

  function Waiting(c: Config, s: State): nat
    requires c.cap >= 1 && Replay(c.policy, c.cap, [], s.log).Some?
  {
    |Queue(c, s)|
  }

  /** As long as nobody takes a request, the queue does not shrink; and no worker
      falls asleep before a queue that is not empty. */
  lemma QueueStays(c: Config, s: State, step: Step)
    requires LockInv(c, s) && RingInv(c, s) && Take(c, s, step).Some?
    requires Taken(Take(c, s, step).value) == Taken(s)
    ensures Replay(c.policy, c.cap, [], Take(c, s, step).value.log).Some?
    ensures Waiting(c, s) <= Waiting(c, Take(c, s, step).value)
  {
    RingInvStep(c, s, step);
    if step.Act? {
      var e := Move(c, s, step.t).value;
      MoveLightens(c, s, step.t);
      OutsConcat(s.log, e.events);
      if e.events == [] {
        assert s.log + e.events == s.log;
      } else {
        assert e.events == [e.events[0]];
        assert Outs(e.events) == Out(e.events[0]) + Outs([]);
        ReplayAppend(c.policy, c.cap, [], s.log, e.events[0]);
      }
    } else {
      assert s.log + [] == s.log;
    }
  }

  lemma StaysAwake(c: Config, s: State, step: Step, w: nat)
    requires LockInv(c, s) && RingInv(c, s) && Take(c, s, step).Some? && Waiting(c, s) > 0
    requires c.acceptors <= w < |s.threads| && !Asleep(s.threads[w])
    ensures w < |Take(c, s, step).value.threads| && !Asleep(Take(c, s, step).value.threads[w])
  {
    if step.Act? && step.t == w && s.threads[w].GetTesting? {
      assert s.mutex == Some(w);
      assert s.ring.count > 0;
    }
  }

  ghost predicate SomethingWaits(c: Config, s: State) {
    c.cap >= 1 && Replay(c.policy, c.cap, [], s.log).Some? && Waiting(c, s) > 0
  }

  predicate IsAwakeWorker(c: Config, s: State, w: nat) {
    c.acceptors <= w < |s.threads| && !Asleep(s.threads[w]) && !s.threads[w].OfAcceptor()
  }

  lemma WaitingGoesOn(c: Config, run: nat -> State, steps: nat -> Step, j: nat)
    requires c.cap >= 1 && IsRun(c, run, steps) && Taken(run(j + 1)) == Taken(run(j)) && SomethingWaits(c, run(j))
    ensures SomethingWaits(c, run(j + 1))
    ensures forall w: nat :: IsAwakeWorker(c, run(j), w) ==> IsAwakeWorker(c, run(j + 1), w)
  {
    assert Take(c, run(j), steps(j)) == Some(run(j + 1));
    assert LockInv(c, run(j)) && RingInv(c, run(j)) by {
      InvAt(c, run, steps, j);
      InvReachable(c, run(j));
    }
    QueueStays(c, run(j), steps(j));
    LockInvStep(c, run(j), steps(j));
    forall w: nat | IsAwakeWorker(c, run(j), w) ensures IsAwakeWorker(c, run(j + 1), w) {
      StaysAwake(c, run(j), steps(j), w);
    }
  }

  lemma {:induction false} StillWaiting(c: Config, run: nat -> State, steps: nat -> Step, i: nat, j: nat)
    requires c.cap >= 1 && IsRun(c, run, steps) && NoneTaken(run, i) && i <= j && SomethingWaits(c, run(i))
    ensures SomethingWaits(c, run(j))
    ensures forall w: nat :: IsAwakeWorker(c, run(i), w) ==> IsAwakeWorker(c, run(j), w)
    decreases j
  {
    if i < j {
      StillWaiting(c, run, steps, i, j - 1);
      assert Taken(run(j)) == Taken(run(i)) == Taken(run(j - 1));
      WaitingGoesOn(c, run, steps, j - 1);
    }
  }

  /** With the mutex free and the queue not empty, some worker is awake. */
  lemma AwakeWorker(c: Config, s: State) returns (w: nat)
    requires Sane(c) && Reachable(c, s) && s.mutex.None? && SomethingWaits(c, s)
    ensures IsAwakeWorker(c, s, w)
  {
    InvReachable(c, s);
    w := SomeWorkerAwake(c, s);
  }

  /** With the mutex free, a worker that does not sleep can go. */
  lemma AwakeWorkerCanGo(c: Config, s: State, w: nat)
    requires c.cap >= 1 && Reachable(c, s) && !s.world.failed && s.mutex.None? && IsAwakeWorker(c, s, w)
    ensures CanGo(c, s, w)
  {
    InvReachable(c, s);
    OthersCanMove(c, s, Ledger(c.fs, s.world.conns), w);
  }

  /** A fair run cannot leave a waiting request to itself. */
  lemma SomebodyTakesOne(c: Config, run: nat -> State, steps: nat -> Step, i: nat)
    requires Sane(c) && IsRun(c, run, steps) && Fair(c, run, steps) && SomethingWaits(c, run(i))
    ensures !NoneTaken(run, i)
  {
    if NoneTaken(run, i) {
      var j := MutexBecomesFree(c, run, steps, i, i);
      StillWaiting(c, run, steps, i, j);
      NoneTakenLater(run, i, j);
      InvAt(c, run, steps, j);
      var w := AwakeWorker(c, run(j));
      forall n: nat | j <= n ensures IsAwakeWorker(c, run(n), w) {
        StillWaiting(c, run, steps, j, n);
      }
      var k := StandsStill(c, run, steps, w, j);
      var m := MutexBecomesFree(c, run, steps, j, k);
      InvAt(c, run, steps, m);
      AwakeWorkerCanGo(c, run(m), w);
      assert false;
    }
  }

  // ---- The theorems ----

  /** Under either policy, in a fair run a queue that is not empty gives up another
      request. */
  lemma AnotherRequestIsTaken(c: Config, run: nat -> State, steps: nat -> Step, i: nat) returns (j: nat)
    requires Sane(c) && IsRun(c, run, steps) && Fair(c, run, steps)
    requires Taken(run(i)) < |Ins(run(i).log)|
    ensures i <= j && Taken(run(j)) > Taken(run(i))
  {
    InvAt(c, run, steps, i);
    PutsAreTakenOrWait(c, run(i));
    SomebodyTakesOne(c, run, steps, i);
    j :| i <= j && Taken(run(j)) != Taken(run(i));
    TakenNeverShrinks(c, run, steps, i, j);
  }

  lemma PutsAreTakenOrWait(c: Config, s: State)
    requires c.cap >= 1 && Reachable(c, s)
    ensures Replay(c.policy, c.cap, [], s.log).Some? && |Ins(s.log)| == Taken(s) + Waiting(c, s)
  {
    BufferIsLinearisable(c, s);
    assert |multiset(Ins(s.log))| == |multiset(Outs(s.log))| + |multiset(Queue(c, s))|;
  }

  lemma {:induction false} PutsStayPut(c: Config, run: nat -> State, steps: nat -> Step, i: nat, j: nat)
    requires c.cap >= 1 && IsRun(c, run, steps) && i <= j
    ensures Ins(run(i).log) <= Ins(run(j).log)
    decreases j
  {
    if i < j {
      PutsStayPut(c, run, steps, i, j - 1);
      assert Take(c, run(j - 1), steps(j - 1)) == Some(run(j));
      PutsGrow(c, run(j - 1), steps(j - 1));
    }
  }

  lemma PutsGrow(c: Config, s: State, step: Step)
    requires c.cap >= 1 && Take(c, s, step).Some?
    ensures Ins(s.log) <= Ins(Take(c, s, step).value.log)
  {
    if step.Act? {
      InsConcat(s.log, Move(c, s, step.t).value.events);
    } else {
      assert s.log + [] == s.log;
    }
  }

  lemma {:induction false} InsConcat(a: seq<Event>, b: seq<Event>)
    ensures Ins(a + b) == Ins(a) + Ins(b)
    decreases |a|
  {
    if a == [] {
      assert a + b == b;
    } else {
      assert (a + b)[1..] == a[1..] + b;
      InsConcat(a[1..], b);
    }
  }

  /** Under FIFO every request that is put is taken, whatever goes on arriving: the
      k-th put is the k-th to be taken. */
  lemma {:induction false} EveryPutIsTaken(c: Config, run: nat -> State, steps: nat -> Step, i: nat, k: nat)
    returns (j: nat)
    requires Sane(c) && c.policy.Fifo? && IsRun(c, run, steps) && Fair(c, run, steps) && k < |Ins(run(i).log)|
    ensures k < Taken(run(j)) && Outs(run(j).log)[k] == Ins(run(i).log)[k]
    decreases k + 1 - Taken(run(i))
  {
    if k < Taken(run(i)) {
      j := i;
      InvAt(c, run, steps, i);
      WorkersGetRequestsInOrder(c, run(i), 0);
    } else {
      var m := AnotherRequestIsTaken(c, run, steps, i);
      PutsStayPut(c, run, steps, i, m);
      j := EveryPutIsTaken(c, run, steps, m, k);
    }
  }
}
