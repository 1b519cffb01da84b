/** Fair infinite runs exist: after any sequence of clients that pass, one worker that
    keeps waking up without a signal and falling asleep again makes the run go on for
    ever, while no other thread can go. */
module FairRuns {
  import opened Requests
  import opened RequestHandling
  import opened ServerModel
  import opened ServerTheorems
  import opened Draining
  import opened FairService
  import opened Arrivals

  // ---- The cycle ----

  function Phase(q: State, w: nat, k: nat): State
    requires w < |q.threads|
  {
    if k % 3 == 0 then q
    else if k % 3 == 1 then q.(threads := q.threads[w := GetWoken])
    else q.(threads := q.threads[w := GetTesting], mutex := Some(w))
  }

  function PhaseStep(w: nat, k: nat): Step {
    if k % 3 == 0 then Spurious(w) else Act(w)
  }

  /** The server rests and worker w sleeps. */
  ghost predicate Rests(c: Config, q: State, w: nat) {
    c.cap >= 1 && AtRest(c, q) && IsIdle(q, w)
  }

  predicate IsIdle(q: State, w: nat) {
    && !q.world.failed && q.mutex.None? && q.ring.count == 0
    && w < |q.threads| && q.threads[w].GetAsleep?
  }

  predicate Turns(c: Config, s: State, step: Step, s': State)
    requires c.cap >= 1
  {
    Take(c, s, step) == Some(s')
  }

  lemma CycleTurns(c: Config, q: State, w: nat, k: nat)
    requires c.cap >= 1 && IsIdle(q, w)
    ensures Turns(c, Phase(q, w, k), PhaseStep(w, k), Phase(q, w, k + 1))
  {
    assert q.log + [] == q.log;
    var s := Phase(q, w, k);
    if k % 3 == 0 {
      assert (k + 1) % 3 == 1;
    } else if k % 3 == 1 {
      assert (k + 1) % 3 == 2;
      assert s.threads[w := GetTesting] == q.threads[w := GetTesting];
    } else {
      assert (k + 1) % 3 == 0;
      assert s.threads[w := GetAsleep] == q.threads;
    }
  }

  /** Nobody but the one worker can go meanwhile. */
  lemma OthersRest(c: Config, q: State, w: nat, k: nat, t: nat)
    requires Rests(c, q, w) && t != w
    ensures !CanGo(c, Phase(q, w, k), t)
  {
    var s := Phase(q, w, k);
    forall step | IsOwn(step) && step.t == t ensures Take(c, s, step).None? {
      if t < |s.threads| {
        assert s.threads[t] == q.threads[t] && Resting(c, q.world, q.threads[t]);
        RestingCannotMove(c, s, t);
      }
    }
  }

  lemma RestingCannotMove(c: Config, s: State, t: nat)
    requires c.cap >= 1 && t < |s.threads| && Resting(c, s.world, s.threads[t])
    ensures Move(c, s, t).None?
  {
  }

  // ---- The run ----

  ghost function StateAt(c: Config, s0: State, prefix: seq<Step>, q: State, w: nat, n: nat): State
    requires c.cap >= 1 && w < |q.threads|
  {
    if n < |prefix| then
      var r := Run(c, s0, prefix[..n]);
      if r.Some? then r.value else q
    else Phase(q, w, n - |prefix|)
  }

  function StepAt(prefix: seq<Step>, w: nat, n: nat): Step {
    if n < |prefix| then prefix[n] else PhaseStep(w, n - |prefix|)
  }

  lemma RunTo(c: Config, s0: State, prefix: seq<Step>, n: nat)
    requires c.cap >= 1 && n < |prefix| && Run(c, s0, prefix).Some?
    ensures Run(c, s0, prefix[..n]).Some? && Run(c, s0, prefix[..n + 1]).Some?
    ensures Take(c, Run(c, s0, prefix[..n]).value, prefix[n]) == Run(c, s0, prefix[..n + 1])
  {
    RunPrefix(c, s0, prefix, n);
    RunPrefix(c, s0, prefix, n + 1);
    var s := Run(c, s0, prefix[..n]).value;
    assert prefix[..n + 1] == prefix[..n] + [prefix[n]];
    RunConcat(c, s0, prefix[..n], [prefix[n]]);
    OneStepRun(c, s, prefix[n]);
  }

  lemma OneStepRun(c: Config, s: State, step: Step)
    requires c.cap >= 1
    ensures Run(c, s, [step]) == Take(c, s, step)
  {
    assert [step][1..] == [];
    if Take(c, s, step).Some? {
      assert Run(c, Take(c, s, step).value, []) == Take(c, s, step);
    }
  }

  lemma {:induction false} RunPrefix(c: Config, s: State, steps: seq<Step>, n: nat)
    requires c.cap >= 1 && n <= |steps| && Run(c, s, steps).Some?
    ensures Run(c, s, steps[..n]).Some?
    decreases n
  {
    if n > 0 {
      assert steps[..n][1..] == steps[1..][..n - 1];
      RunPrefix(c, Take(c, s, steps[0]).value, steps[1..], n - 1);
    }
  }

  lemma PrefixTurns(c: Config, s0: State, prefix: seq<Step>, q: State, w: nat, n: nat)
    requires c.cap >= 1 && w < |q.threads| && Run(c, s0, prefix) == Some(q) && n < |prefix|
    ensures Turns(c, StateAt(c, s0, prefix, q, w, n), StepAt(prefix, w, n), StateAt(c, s0, prefix, q, w, n + 1))
  {
    RunTo(c, s0, prefix, n);
    if n + 1 == |prefix| {
      assert prefix[..n + 1] == prefix;
      assert StateAt(c, s0, prefix, q, w, n + 1) == Phase(q, w, 0) == q;
    }
  }

  lemma CycleStateTurns(c: Config, s0: State, prefix: seq<Step>, q: State, w: nat, n: nat)
    requires c.cap >= 1 && IsIdle(q, w) && |prefix| <= n
    ensures Turns(c, StateAt(c, s0, prefix, q, w, n), StepAt(prefix, w, n), StateAt(c, s0, prefix, q, w, n + 1))
  {
    InTheCycle(c, s0, prefix, q, w, n);
    CycleTurns(c, q, w, n - |prefix|);
  }

  lemma StateTurns(c: Config, s0: State, prefix: seq<Step>, q: State, w: nat, n: nat)
    requires c.cap >= 1 && IsIdle(q, w) && Run(c, s0, prefix) == Some(q)
    ensures Turns(c, StateAt(c, s0, prefix, q, w, n), StepAt(prefix, w, n), StateAt(c, s0, prefix, q, w, n + 1))
  {
    if n < |prefix| {
      PrefixTurns(c, s0, prefix, q, w, n);
    } else {
      CycleStateTurns(c, s0, prefix, q, w, n);
    }
  }

  lemma InTheCycle(c: Config, s0: State, prefix: seq<Step>, q: State, w: nat, n: nat)
    requires c.cap >= 1 && w < |q.threads| && |prefix| <= n
    ensures StateAt(c, s0, prefix, q, w, n) == Phase(q, w, n - |prefix|)
    ensures StateAt(c, s0, prefix, q, w, n + 1) == Phase(q, w, n - |prefix| + 1)
    ensures StepAt(prefix, w, n) == PhaseStep(w, n - |prefix|)
  {
  }

  lemma OnlyTheWorkerGoes(c: Config, s: State, q: State, w: nat, k: nat, t: nat)
    requires Rests(c, q, w) && s == Phase(q, w, k) && CanGo(c, s, t)
    ensures t == w
  {
    if t != w {
      OthersRest(c, q, w, k, t);
    }
  }

  lemma TheWorkerGoes(steps: nat -> Step, from: nat, w: nat)
    requires forall k: nat :: steps(from + k) == PhaseStep(w, k)
    ensures GoesAgain(steps, w)
  {
    forall i: nat ensures GoesLater(steps, w, i) {
      var k := 3 * i + 1;
      assert steps(from + k) == PhaseStep(w, k) == Act(w);
      assert GoesAt(steps, w, from + k);
    }
  }

  lemma OnlyTheWorkerGoesAgain(c: Config, run: nat -> State, from: nat, q: State, w: nat, t: nat)
    requires Rests(c, q, w) && CanGoAgain(c, run, t)
    requires forall k: nat :: run(from + k) == Phase(q, w, k)
    ensures t == w
  {
    assert CanGoLater(c, run, t, from);
    var j: nat :| from <= j && CanGo(c, run(j), t);
    assert run(from + (j - from)) == Phase(q, w, j - from);
    OnlyTheWorkerGoes(c, run(j), q, w, j - from, t);
  }

  lemma CycleIsFair(c: Config, run: nat -> State, steps: nat -> Step, from: nat, q: State, w: nat)
    requires Rests(c, q, w)
    requires forall k: nat :: run(from + k) == Phase(q, w, k)
    requires forall k: nat :: steps(from + k) == PhaseStep(w, k)
    ensures Fair(c, run, steps)
  {
    TheWorkerGoes(steps, from, w);
    forall t: nat | CanGoAgain(c, run, t) ensures t == w {
      OnlyTheWorkerGoesAgain(c, run, from, q, w, t);
    }
  }

  ghost function WholeRun(c: Config, s0: State, prefix: seq<Step>, q: State, w: nat): nat -> State
    requires c.cap >= 1 && w < |q.threads|
  {
    (i: nat) => StateAt(c, s0, prefix, q, w, i)
  }

  function WholeSteps(prefix: seq<Step>, w: nat): nat -> Step {
    (i: nat) => StepAt(prefix, w, i)
  }

  lemma WholeIsRun(c: Config, s0: State, prefix: seq<Step>, q: State, w: nat)
    requires c.cap >= 1 && IsIdle(q, w) && Init(c, s0) && Run(c, s0, prefix) == Some(q)
    ensures IsRun(c, WholeRun(c, s0, prefix, q, w), WholeSteps(prefix, w))
  {
    var run, steps := WholeRun(c, s0, prefix, q, w), WholeSteps(prefix, w);
    forall i: nat ensures Take(c, run(i), steps(i)) == Some(run(i + 1)) {
      StateTurns(c, s0, prefix, q, w, i);
    }
    StartsThere(c, s0, prefix, q, w);
  }

  lemma WholeIsFair(c: Config, s0: State, prefix: seq<Step>, q: State, w: nat)
    requires Rests(c, q, w) && Init(c, s0) && Run(c, s0, prefix) == Some(q)
    ensures Fair(c, WholeRun(c, s0, prefix, q, w), WholeSteps(prefix, w))
    ensures WholeRun(c, s0, prefix, q, w)(|prefix|) == q
  {
    var run, steps := WholeRun(c, s0, prefix, q, w), WholeSteps(prefix, w);
    forall k: nat ensures run(|prefix| + k) == Phase(q, w, k) && steps(|prefix| + k) == PhaseStep(w, k) {
    }
    CycleIsFair(c, run, steps, |prefix|, q, w);
    assert run(|prefix| + 0) == Phase(q, w, 0);
  }

  /** For any sequence of clients that pass there is a fair infinite run that accepts
      exactly them and closes them all. */
  lemma FairRunsExist(c: Config, conns: seq<Conn>) returns (run: nat -> State, steps: nat -> Step, n: nat)
    requires Sane(c) && AllPass(c.fs, conns)
    ensures IsRun(c, run, steps) && Fair(c, run, steps)
    ensures run(n).world.conns == conns && run(n).world.open == map[]
  {
    var q := EverybodyCanCome(c, conns);
    var s0, prefix :| Init(c, s0) && Run(c, s0, prefix) == Some(q);
    var w := SleepingWorker(c, q);
    WholeIsRun(c, s0, prefix, q, w);
    WholeIsFair(c, s0, prefix, q, w);
    run, steps, n := WholeRun(c, s0, prefix, q, w), WholeSteps(prefix, w), |prefix|;
  }

  lemma StartsThere(c: Config, s0: State, prefix: seq<Step>, q: State, w: nat)
    requires c.cap >= 1 && w < |q.threads| && Run(c, s0, prefix) == Some(q)
    ensures StateAt(c, s0, prefix, q, w, 0) == s0
  {
    if prefix != [] {
      assert prefix[..0] == [];
    }
  }

  lemma SleepingWorker(c: Config, q: State) returns (w: nat)
    requires Sane(c) && Reachable(c, q) && Quiet(c, q) && !q.world.failed
    ensures Rests(c, q, w)
  {
    InvReachable(c, q);
    QuietIsAtRest(c, q);
    w := c.acceptors;
    assert !q.threads[w].OfAcceptor() && Resting(c, q.world, q.threads[w]);
  }
}
