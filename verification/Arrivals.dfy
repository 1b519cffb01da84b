/** What the clients, the kernel and the scheduler may do: the runs that the other
    theorems speak of are all there. */
module Arrivals {
  import opened Requests
  import opened BoundedQueue
  import opened RequestHandling
  import opened Descriptors
  import opened ServerModel
  import opened Linearisation
  import opened Responses
  import opened ServerTheorems
  import opened Draining

  // ---- Single steps that are always possible ----

  /** An acceptor at accept can get any connection, on any number that is not open,
      however many there have been; nothing else changes. */
  lemma AnybodyCanConnect(c: Config, s: State, t: nat, fd: int, conn: Conn) returns (s': State)
    requires c.cap >= 1 && Reachable(c, s) && !s.world.failed
    requires t < |s.threads| && s.threads[t].Accepting? && fd !in s.world.open
    ensures Reachable(c, s') && Take(c, s, Accept(t, fd, conn)) == Some(s')
    ensures s'.world.conns == s.world.conns + [conn] && s'.world.open == s.world.open[fd := |s.world.conns|]
    ensures s'.world.output == s.world.output + [""] && s'.world.closes == s.world.closes + [0]
    ensures !s'.world.failed && s'.threads == s.threads[t := Parsing(fd)]
    ensures s'.ring == s.ring && s'.mutex == s.mutex && s'.log == s.log
  {
    s' := Take(c, s, Accept(t, fd, conn)).value;
    ReachableNext(c, s, Accept(t, fd, conn));
    assert s.log + [] == s.log;
  }

  /** Whoever wants the mutex can have it when it is free, a thread that has just come
      before one that was woken. */
  lemma AnybodyCanLock(c: Config, s: State, t: nat)
    requires c.cap >= 1 && !s.world.failed && s.mutex.None? && t < |s.threads|
    requires s.threads[t].PutLocking? || s.threads[t].PutWoken? || s.threads[t].GetLocking? || s.threads[t].GetWoken?
    ensures var pc := s.threads[t];
            Take(c, s, Act(t)) ==
            Some(s.(mutex := Some(t),
                    threads := s.threads[t := if pc.OfAcceptor() then PutTesting(pc.req) else GetTesting]))
  {
    assert s.log + [] == s.log;
  }

  /** Any sleeper can wake up without a signal, and a signal can wake any sleeper of
      its condition variable. */
  lemma AnybodyCanWake(c: Config, s: State, t: nat, u: nat)
    requires c.cap >= 1 && !s.world.failed && t < |s.threads| && u < |s.threads|
    ensures s.threads[t].GetAsleep? ==> Take(c, s, Spurious(t)) == Some(s.(threads := s.threads[t := GetWoken]))
    ensures s.threads[t].PutAsleep? ==>
              Take(c, s, Spurious(t)) == Some(s.(threads := s.threads[t := PutWoken(s.threads[t].req)]))
    ensures s.threads[t].GetAsleep? && s.threads[u].PutSignalling? ==>
              Take(c, s, Signal(u, t)) == Some(s.(threads := s.threads[u := PutUnlocking][t := GetWoken]))
    ensures s.threads[t].PutAsleep? && s.threads[u].GetSignalling? ==>
              Take(c, s, Signal(u, t)) ==
              Some(s.(threads := s.threads[u := GetUnlocking(s.threads[u].req)][t := PutWoken(s.threads[t].req)]))
  {
    assert s.log + [] == s.log;
  }

  // ---- Any sequence of clients ----

  /** The request is answered or refused, and ends nothing. */
  predicate Passes(fs: FileSystem, conn: Conn) {
    PipelineOutcome(fs, conn, 0).Replies?
  }

  predicate AllPass(fs: FileSystem, conns: seq<Conn>) {
    forall n :: 0 <= n < |conns| ==> Passes(fs, conns[n])
  }

  lemma PassingDoesNotKill(fs: FileSystem, conns: seq<Conn>)
    requires AllPass(fs, conns)
    ensures forall n :: 0 <= n < |conns| ==> !Kills(fs, conns[n])
  {
    forall n | 0 <= n < |conns| ensures !Kills(fs, conns[n]) {
      DiesIff(fs, conns[n], 0);
    }
  }

  /** Where no thread can go on and every request has passed, nothing is open and the
      acceptors are back at accept. */
  lemma AllClosedAtRest(c: Config, s: State)
    requires Sane(c) && Reachable(c, s) && Quiet(c, s) && !s.world.failed
    requires AllPass(c.fs, s.world.conns)
    ensures s.world.open == map[]
    ensures 0 < |s.threads| && s.threads[0].Accepting?
  {
    InvReachable(c, s);
    QuietIsAtRest(c, s);
    forall fd | fd in s.world.open ensures false {
      OpenAtRestIsStuck(c, s, fd);
    }
    StuckHolds(c, s);
  }

  lemma StuckHolds(c: Config, s: State)
    requires Sane(c) && LockInv(c, s) && AtRest(c, s) && s.world.open == map[]
    ensures 0 < |s.threads| && s.threads[0].Accepting?
  {
    assert s.threads[0].OfAcceptor() && Resting(c, s.world, s.threads[0]);
  }

  /** The server has accepted exactly these clients and closed them all, and the
      acceptor is back at accept. */
  ghost predicate AllGone(c: Config, s: State, conns: seq<Conn>) {
    && c.cap >= 1 && Reachable(c, s) && Quiet(c, s) && !s.world.failed && s.world.conns == conns
    && s.world.open == map[] && 0 < |s.threads| && s.threads[0].Accepting?
  }

  /** Whatever clients come, one after the other, some run accepts them all; and as
      long as each of them passes, serves them all. */
  lemma {:induction false} EverybodyCanCome(c: Config, conns: seq<Conn>) returns (s: State)
    requires Sane(c) && AllPass(c.fs, conns)
    ensures AllGone(c, s, conns)
    decreases |conns|
  {
    if conns == [] {
      s := Start(c);
      s := RunsToRest(c, s, []);
    } else {
      var init, last := conns[..|conns| - 1], conns[|conns| - 1];
      AllPassButTheLast(c.fs, conns);
      s := EverybodyCanCome(c, init);
      s := OneMoreComes(c, s, init, last);
    }
  }

  lemma AllPassButTheLast(fs: FileSystem, conns: seq<Conn>)
    requires conns != [] && AllPass(fs, conns)
    ensures var init, last := conns[..|conns| - 1], conns[|conns| - 1];
            AllPass(fs, init) && Passes(fs, last) && conns == init + [last]
  {
    var init := conns[..|conns| - 1];
    forall n | 0 <= n < |init| ensures Passes(fs, init[n]) {
      assert init[n] == conns[n];
    }
  }

  lemma OneMoreComes(c: Config, s0: State, conns: seq<Conn>, conn: Conn) returns (s: State)
    requires Sane(c) && AllGone(c, s0, conns) && AllPass(c.fs, conns) && Passes(c.fs, conn)
    ensures AllGone(c, s, conns + [conn])
  {
    s := AnybodyCanConnect(c, s0, 0, 0, conn);
    s := RunsToRest(c, s, conns + [conn]);
  }

  /** Where the threads start. */
  function Starters(c: Config): (ts: seq<Pc>)
    ensures |ts| == c.acceptors + c.workers
  {
    seq(c.acceptors + c.workers, i => if i < c.acceptors then Accepting else GetLocking)
  }

  lemma Start(c: Config) returns (s: State)
    requires c.cap >= 1
    ensures Init(c, s) && Reachable(c, s) && s.world == BOOT && !s.world.failed && s.log == [] && s.mutex == None
    ensures s.threads == Starters(c)
  {
    var slot := Request(0, "", "", true, 0);
    s := State(Ring(seq(c.cap, _ => slot), 0, 0, 0), None, Starters(c), BOOT, []);
    assert Run(c, s, []) == Some(s);
  }

  lemma RunsToRest(c: Config, s1: State, conns: seq<Conn>) returns (s: State)
    requires Sane(c) && Reachable(c, s1) && s1.world.conns == conns && AllPass(c.fs, conns)
    ensures AllGone(c, s, conns)
  {
    ReachableIsMeasured(c, s1);
    var steps;
    steps, s := SomeQuietRun(c, s1);
    OwnRunKeepsConnections(c, s1, steps);
    PassingDoesNotKill(c.fs, conns);
    QuietHasServed(c, s);
    AllClosedAtRest(c, s);
  }

  // ---- A full buffer ----

  predicate Parses(fs: FileSystem, conn: Conn) {
    ParseOutcome(fs, conn, 0).Ready?
  }

  predicate AllParse(fs: FileSystem, conns: seq<Conn>) {
    forall n :: 0 <= n < |conns| ==> Parses(fs, conns[n])
  }

  function RequestOn(fs: FileSystem, conn: Conn, fd: int): Request
    requires Parses(fs, conn)
  {
    ParseOutcome(fs, conn, 0).req.(connFd := fd)
  }

  /** The requests of the connections, each on the number of its place. */
  function RequestsOf(fs: FileSystem, conns: seq<Conn>): (reqs: seq<Request>)
    requires AllParse(fs, conns)
    ensures |reqs| == |conns|
  {
    seq(|conns|, n requires 0 <= n < |conns| && Parses(fs, conns[n]) => RequestOn(fs, conns[n], n))
  }

  /** Acceptor 0 is at pc, and everybody else where they started. */
  ghost predicate Walking(c: Config, s: State, pc: Pc, w: World, mutex: Option<nat>, log: seq<Event>) {
    && c.cap >= 1 && c.acceptors >= 1
    && Reachable(c, s)
    && s.threads == Starters(c)[0 := pc]
    && s.world == w && s.mutex == mutex && s.log == log && !w.failed
  }

  lemma SetTwice(ts: seq<Pc>, pc: Pc, pc': Pc)
    requires 0 < |ts|
    ensures ts[0 := pc][0 := pc'] == ts[0 := pc']
  {
  }

  lemma Walk(c: Config, s: State, pc: Pc, w: World, mutex: Option<nat>, log: seq<Event>, e: Effect) returns (s': State)
    requires Walking(c, s, pc, w, mutex, log) && Move(c, s, 0) == Some(e) && e.world == w
    ensures Walking(c, s', e.pc, w, e.mutex, log + e.events)
  {
    s' := After(s, 0, e);
    SetTwice(Starters(c), pc, e.pc);
    ActReaches(c, s, e);
  }

  lemma ActReaches(c: Config, s: State, e: Effect)
    requires c.cap >= 1 && Reachable(c, s) && !s.world.failed && 0 < |s.threads| && Move(c, s, 0) == Some(e)
    ensures Reachable(c, After(s, 0, e))
  {
    assert Take(c, s, Act(0)) == Some(After(s, 0, e));
    ReachableNext(c, s, Act(0));
  }

  lemma SignalReaches(c: Config, s: State)
    requires c.cap >= 1 && Reachable(c, s) && !s.world.failed && 0 < |s.threads| && s.threads[0] == PutSignalling
    requires forall k :: 0 <= k < |s.threads| ==> !s.threads[k].GetAsleep?
    ensures Reachable(c, After(s, 0, Goto(s, PutUnlocking)))
  {
    assert Take(c, s, SignalNobody(0)) == Some(After(s, 0, Goto(s, PutUnlocking)));
    ReachableNext(c, s, SignalNobody(0));
  }

  /** accept and request_parse. */
  lemma WalkIn(c: Config, s: State, w: World, log: seq<Event>, fd: int, conn: Conn) returns (s': State)
    requires Walking(c, s, Accepting, w, None, log) && fd !in w.open && Parses(c.fs, conn)
    ensures Walking(c, s', PutLocking(RequestOn(c.fs, conn, fd)), AcceptOn(w, fd, conn), None, log)
  {
    var s1 := AnybodyCanConnect(c, s, 0, fd, conn);
    var w1 := AcceptOn(w, fd, conn);
    assert Walking(c, s1, Parsing(fd), w1, None, log);
    assert s1.world.conns[|w.conns|] == conn;
    ParseNamesTheDescriptor(c.fs, conn, fd);
    var e := AcceptorMove(c, s1, 0).value;
    s' := Walk(c, s1, Parsing(fd), w1, None, log, e);
    assert log + [] == log;
  }

  lemma FilledRing(c: Config, s: State)
    requires c.cap >= 1 && Reachable(c, s)
    ensures Replay(c.policy, c.cap, [], s.log).Some?
    ensures s.ring.count == |Replay(c.policy, c.cap, [], s.log).value| && InSlots(s.ring, s.ring.tail)
  {
    InvReachable(c, s);
  }

  lemma WalkToTest(c: Config, s: State, w: World, log: seq<Event>, req: Request) returns (s': State)
    requires Walking(c, s, PutLocking(req), w, None, log)
    ensures Walking(c, s', PutTesting(req), w, Some(0), log)
  {
    s' := Walk(c, s, PutLocking(req), w, None, log, PutMove(c, s, 0).value);
    assert log + [] == log;
  }

  lemma WalkToStore(c: Config, s: State, w: World, log: seq<Event>, req: Request) returns (s': State)
    requires Walking(c, s, PutTesting(req), w, Some(0), log)
    requires Replay(c.policy, c.cap, [], log).Some? && |Replay(c.policy, c.cap, [], log).value| < c.cap
    ensures Walking(c, s', PutStoring(req), w, Some(0), log)
  {
    FilledRing(c, s);
    s' := Walk(c, s, PutTesting(req), w, Some(0), log, PutMove(c, s, 0).value);
    assert log + [] == log;
  }

  lemma WalkToAdvance(c: Config, s: State, w: World, log: seq<Event>, req: Request) returns (s': State)
    requires Walking(c, s, PutStoring(req), w, Some(0), log)
    ensures Walking(c, s', PutAdvancing(req), w, Some(0), log)
  {
    FilledRing(c, s);
    s' := Walk(c, s, PutStoring(req), w, Some(0), log, PutMove(c, s, 0).value);
    assert log + [] == log;
  }

  lemma WalkToCount(c: Config, s: State, w: World, log: seq<Event>, req: Request) returns (s': State)
    requires Walking(c, s, PutAdvancing(req), w, Some(0), log)
    ensures Walking(c, s', PutCounting(req), w, Some(0), log)
  {
    s' := Walk(c, s, PutAdvancing(req), w, Some(0), log, PutMove(c, s, 0).value);
    assert log + [] == log;
  }

  lemma WalkToSignal(c: Config, s: State, w: World, log: seq<Event>, req: Request) returns (s': State)
    requires Walking(c, s, PutCounting(req), w, Some(0), log)
    ensures Walking(c, s', PutSignalling, w, Some(0), log + [Put(req)])
  {
    s' := Walk(c, s, PutCounting(req), w, Some(0), log, PutMove(c, s, 0).value);
  }

  lemma WalkToUnlock(c: Config, s: State, w: World, log: seq<Event>) returns (s': State)
    requires Walking(c, s, PutSignalling, w, Some(0), log)
    ensures Walking(c, s', PutUnlocking, w, Some(0), log)
  {
    s' := After(s, 0, Goto(s, PutUnlocking));
    SetTwice(Starters(c), PutSignalling, PutUnlocking);
    SignalReaches(c, s);
    assert log + [] == log;
  }

  lemma WalkOut(c: Config, s: State, w: World, log: seq<Event>) returns (s': State)
    requires Walking(c, s, PutUnlocking, w, Some(0), log)
    ensures Walking(c, s', Accepting, w, None, log)
  {
    s' := Walk(c, s, PutUnlocking, w, Some(0), log, PutMove(c, s, 0).value);
    assert log + [] == log;
  }

  /** The world after these connections have been accepted on the numbers of their
      places. */
  ghost predicate HasAccepted(w: World, conns: seq<Conn>) {
    w.conns == conns && !w.failed && forall fd :: fd in w.open <==> 0 <= fd < |conns|
  }

  function PutsOf(reqs: seq<Request>): seq<Event> {
    seq(|reqs|, n requires 0 <= n < |reqs| => Put(reqs[n]))
  }

  lemma {:induction false} PutsFill(p: Policy, cap: nat, reqs: seq<Request>)
    requires |reqs| <= cap
    ensures Replay(p, cap, [], PutsOf(reqs)) == Some(reqs)
    decreases |reqs|
  {
    if reqs != [] {
      var init, last := reqs[..|reqs| - 1], reqs[|reqs| - 1];
      PutsFill(p, cap, init);
      assert PutsOf(reqs) == PutsOf(init) + [Put(last)];
      ReplayAppend(p, cap, [], PutsOf(init), Put(last));
      assert init + [last] == reqs;
    }
  }

  /** With room for it, acceptor 0 takes in and puts one more connection. */
  lemma WalkRound(c: Config, s: State, w: World, log: seq<Event>, fd: int, conn: Conn) returns (s': State)
    requires Walking(c, s, Accepting, w, None, log) && fd !in w.open && Parses(c.fs, conn)
    requires Replay(c.policy, c.cap, [], log).Some? && |Replay(c.policy, c.cap, [], log).value| < c.cap
    ensures Walking(c, s', Accepting, AcceptOn(w, fd, conn), None, log + [Put(RequestOn(c.fs, conn, fd))])
  {
    var req, w' := RequestOn(c.fs, conn, fd), AcceptOn(w, fd, conn);
    var s1 := WalkIn(c, s, w, log, fd, conn);
    var s2 := WalkToTest(c, s1, w', log, req);
    var s3 := WalkToStore(c, s2, w', log, req);
    var s4 := WalkToAdvance(c, s3, w', log, req);
    var s5 := WalkToCount(c, s4, w', log, req);
    var s6 := WalkToSignal(c, s5, w', log, req);
    var s7 := WalkToUnlock(c, s6, w', log + [Put(req)]);
    s' := WalkOut(c, s7, w', log + [Put(req)]);
  }

  /** Without, it falls asleep. */
  lemma WalkToSleep(c: Config, s: State, w: World, log: seq<Event>, fd: int, conn: Conn) returns (s': State)
    requires Walking(c, s, Accepting, w, None, log) && fd !in w.open && Parses(c.fs, conn)
    requires Replay(c.policy, c.cap, [], log).Some? && |Replay(c.policy, c.cap, [], log).value| == c.cap
    ensures Walking(c, s', PutAsleep(RequestOn(c.fs, conn, fd)), AcceptOn(w, fd, conn), None, log)
  {
    var req, w' := RequestOn(c.fs, conn, fd), AcceptOn(w, fd, conn);
    var s1 := WalkIn(c, s, w, log, fd, conn);
    var s2 := WalkToTest(c, s1, w', log, req);
    s' := WalkFromFullTest(c, s2, w', log, req);
  }

  lemma WalkFromFullTest(c: Config, s: State, w: World, log: seq<Event>, req: Request) returns (s': State)
    requires Walking(c, s, PutTesting(req), w, Some(0), log)
    requires Replay(c.policy, c.cap, [], log).Some? && |Replay(c.policy, c.cap, [], log).value| == c.cap
    ensures Walking(c, s', PutAsleep(req), w, None, log)
  {
    FilledRing(c, s);
    s' := Walk(c, s, PutTesting(req), w, Some(0), log, PutMove(c, s, 0).value);
    assert log + [] == log;
  }

  lemma OneMoreRequest(fs: FileSystem, conns: seq<Conn>, conn: Conn)
    requires Parses(fs, conn) && AllParse(fs, conns)
    ensures AllParse(fs, conns + [conn])
    ensures RequestsOf(fs, conns + [conn]) == RequestsOf(fs, conns) + [RequestOn(fs, conn, |conns|)]
  {
    var all := conns + [conn];
    forall n | 0 <= n < |all| ensures Parses(fs, all[n]) {
      assert n < |conns| ==> all[n] == conns[n];
    }
    forall n | 0 <= n < |conns| ensures RequestsOf(fs, all)[n] == RequestsOf(fs, conns)[n] {
      assert all[n] == conns[n];
    }
  }

  lemma OneMorePut(reqs: seq<Request>, req: Request)
    ensures PutsOf(reqs + [req]) == PutsOf(reqs) + [Put(req)]
  {
  }

  lemma OneMoreAccepted(w: World, conns: seq<Conn>, conn: Conn)
    requires HasAccepted(w, conns)
    ensures |conns| !in w.open && HasAccepted(AcceptOn(w, |conns|, conn), conns + [conn])
  {
  }

  /** The first connections wait as requests on the numbers of their places, and no
      worker has started. */
  ghost predicate AllWait(c: Config, s: State, w: World, conns: seq<Conn>) {
    && AllParse(c.fs, conns)
    && Walking(c, s, Accepting, w, None, PutsOf(RequestsOf(c.fs, conns))) && HasAccepted(w, conns)
  }

  lemma OneMoreWaits(c: Config, s: State, w: World, conns: seq<Conn>, conn: Conn) returns (s': State, w': World)
    requires AllWait(c, s, w, conns) && |conns| < c.cap && Parses(c.fs, conn)
    ensures AllWait(c, s', w', conns + [conn])
  {
    var reqs := RequestsOf(c.fs, conns);
    OneMoreAccepted(w, conns, conn);
    PutsFill(c.policy, c.cap, reqs);
    s' := WalkRound(c, s, w, PutsOf(reqs), |conns|, conn);
    w' := AcceptOn(w, |conns|, conn);
    OneMoreRequest(c.fs, conns, conn);
    OneMorePut(reqs, RequestOn(c.fs, conn, |conns|));
  }

  /** As many requests as there are slots can all wait at once, in the order of their
      arrival, while no worker has started. */
  lemma {:induction false} BufferCanFill(c: Config, conns: seq<Conn>) returns (s: State, w: World)
    requires Sane(c) && |conns| <= c.cap && AllParse(c.fs, conns)
    ensures AllWait(c, s, w, conns)
    decreases |conns|
  {
    if conns == [] {
      s := Start(c);
      w := BOOT;
      assert Starters(c)[0 := Accepting] == Starters(c);
    } else {
      var init, last := conns[..|conns| - 1], conns[|conns| - 1];
      AllParseButTheLast(c.fs, conns);
      s, w := BufferCanFill(c, init);
      s, w := OneMoreWaits(c, s, w, init, last);
    }
  }

  lemma AllParseButTheLast(fs: FileSystem, conns: seq<Conn>)
    requires conns != [] && AllParse(fs, conns)
    ensures var init, last := conns[..|conns| - 1], conns[|conns| - 1];
            AllParse(fs, init) && Parses(fs, last) && conns == init + [last]
  {
    var init := conns[..|conns| - 1];
    forall n | 0 <= n < |init| ensures Parses(fs, init[n]) {
      assert init[n] == conns[n];
    }
  }

  /** They then are the queue, and so the ring holds them. */
  lemma FilledBuffer(c: Config, conns: seq<Conn>) returns (s: State)
    requires Sane(c) && |conns| <= c.cap && AllParse(c.fs, conns)
    ensures Reachable(c, s) && s.world.conns == conns && s.mutex.None? && s.ring.count == |conns|
    ensures Replay(c.policy, c.cap, [], s.log) == Some(RequestsOf(c.fs, conns))
  {
    var w;
    s, w := BufferCanFill(c, conns);
    PutsFill(c.policy, c.cap, RequestsOf(c.fs, conns));
    FilledRing(c, s);
  }

  /** One more waits: its acceptor falls asleep before the full buffer. */
  lemma PutterCanSleep(c: Config, conns: seq<Conn>, conn: Conn) returns (s: State)
    requires Sane(c) && |conns| == c.cap && Parses(c.fs, conn)
    requires AllParse(c.fs, conns)
    ensures Reachable(c, s) && s.world.conns == conns + [conn] && s.mutex.None? && s.ring.count == c.cap
    ensures Replay(c.policy, c.cap, [], s.log) == Some(RequestsOf(c.fs, conns))
    ensures 0 < |s.threads| && s.threads[0] == PutAsleep(RequestOn(c.fs, conn, c.cap))
  {
    var s0, w0 := BufferCanFill(c, conns);
    OneMoreAccepted(w0, conns, conn);
    PutsFill(c.policy, c.cap, RequestsOf(c.fs, conns));
    s := WalkToSleep(c, s0, w0, PutsOf(RequestsOf(c.fs, conns)), c.cap, conn);
    FilledRing(c, s);
  }
}
