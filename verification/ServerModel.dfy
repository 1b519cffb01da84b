/** The concurrent server as a system of steps. Every thread has a program
    counter; a step is one access to shared memory, one operation on the mutex or
    on a condition variable, or one kernel call, and the steps of different
    threads interleave in any order.

    A signal wakes one sleeper if there is one. A condition variable may also wake
    a thread without any signal, and a woken thread competes for the mutex with
    every other thread, so a fresh one may get it first. */
module ServerModel {
  import opened Requests
  import opened BoundedQueue
  import opened RequestHandling
  import opened Descriptors

  /** The source has one acceptor; nothing below depends on it. */
  datatype Config = Config(cap: int, policy: Policy, acceptors: nat, workers: nat, fs: FileSystem)

  /** What main checks before it starts the threads. */
  predicate Sane(c: Config) {
    c.cap >= 1 && c.workers >= 1 && c.acceptors >= 1
  }

  datatype Ring = Ring(slots: seq<Request>, head: int, tail: int, count: int)

  datatype Pc =
      // the acceptor loop: accept, request_parse
    | Accepting
    | Parsing(fd: int)
    | Refusing(fd: int, todo: seq<string>)
      // buffer_put
    | PutLocking(req: Request)
    | PutTesting(req: Request)
    | PutAsleep(req: Request)
    | PutWoken(req: Request)
    | PutStoring(req: Request)
    | PutAdvancing(req: Request)
    | PutCounting(req: Request)
    | PutSignalling
    | PutUnlocking
      // the worker loop: buffer_get
    | GetLocking
    | GetTesting
    | GetAsleep
    | GetWoken
    | FifoLoading
    | FifoAdvancing(req: Request)
    | SffScanning(i: int, minLogical: int, minSize: int)
    | SffShifting(req: Request, cur: int, next: int)
    | GetCounting(req: Request)
    | GetSignalling(req: Request)
    | GetUnlocking(req: Request)
      // request_serve
    | Serving(req: Request)
    | Sending(fd: int, todo: seq<string>)
  {
    /** The thread is between its lock and its unlock. */
    predicate InCritical() {
      PutTesting? || PutStoring? || PutAdvancing? || PutCounting? || PutSignalling? || PutUnlocking?
      || GetTesting? || FifoLoading? || FifoAdvancing? || SffScanning? || SffShifting?
      || GetCounting? || GetSignalling? || GetUnlocking?
    }

    predicate OfAcceptor() {
      Accepting? || Parsing? || Refusing? || PutLocking? || PutTesting? || PutAsleep? || PutWoken?
      || PutStoring? || PutAdvancing? || PutCounting? || PutSignalling? || PutUnlocking?
    }
  }

  /** log: the completed puts and gets, in the order of their count updates. */
  datatype State = State(ring: Ring, mutex: Option<nat>, threads: seq<Pc>, world: World, log: seq<Event>)

  predicate Init(c: Config, s: State) {
    && |s.ring.slots| == c.cap
    && s.ring.head == s.ring.tail == s.ring.count == 0
    && s.mutex == None
    && s.threads == seq(c.acceptors + c.workers, i => if i < c.acceptors then Accepting else GetLocking)
    && s.world == BOOT
    && s.log == []
  }

  // ---- The steps of one thread ----

  /** What a step of one thread leaves behind. */
  datatype Effect = Effect(pc: Pc, ring: Ring, mutex: Option<nat>, world: World, events: seq<Event>)

  function Goto(s: State, pc: Pc): Effect {
    Effect(pc, s.ring, s.mutex, s.world, [])
  }

  function Lock(s: State, t: nat, pc: Pc): Option<Effect> {
    if s.mutex.None? then Some(Goto(s, pc).(mutex := Some(t))) else None
  }

  function Unlock(s: State, pc: Pc): Effect {
    Goto(s, pc).(mutex := None)
  }

  function Update(s: State, pc: Pc, ring: Ring): Effect {
    Goto(s, pc).(ring := ring)
  }

  function Access(s: State, pc: Pc, world: World): Effect {
    Goto(s, pc).(world := world)
  }

  predicate InSlots(r: Ring, i: int) {
    0 <= i < |r.slots|
  }

  /** The connection that a descriptor denotes. */
  predicate Denotes(w: World, fd: int) {
    fd in w.open && w.open[fd] < |w.conns|
  }

  /** Where request_parse has got with outcome p; None when it never returns. */
  function Decided(c: Config, s: State, fd: int, p: Parsed): Option<Effect> {
    match p
    case Stuck => None
    case Rejected(cause, why) => Some(Goto(s, Refusing(fd, Writes(c.fs, Refused(cause, why)))))
    case Ready(req) => Some(Goto(s, PutLocking(req)))
  }

  /** accept has its own step; None: the thread cannot move. */
  function AcceptorMove(c: Config, s: State, t: nat): Option<Effect>
    requires t < |s.threads|
  {
    match s.threads[t]
    case Parsing(fd) =>
      if !Denotes(s.world, fd) then None
      else Decided(c, s, fd, ParseOutcome(c.fs, s.world.conns[s.world.open[fd]], fd))
    case Refusing(fd, todo) =>
      if todo != [] then Some(Access(s, Refusing(fd, todo[1..]), WriteTo(s.world, fd, todo[0])))
      else Some(Access(s, Accepting, CloseFd(s.world, fd)))
    case _ => None
  }

  function PutMove(c: Config, s: State, t: nat): Option<Effect>
    requires t < |s.threads| && c.cap >= 1
  {
    var r := s.ring;
    match s.threads[t]
    case PutLocking(req) => Lock(s, t, PutTesting(req))
    case PutWoken(req) => Lock(s, t, PutTesting(req))
    case PutTesting(req) =>
      if r.count == c.cap then Some(Unlock(s, PutAsleep(req))) else Some(Goto(s, PutStoring(req)))
    case PutStoring(req) =>
      if InSlots(r, r.tail) then Some(Update(s, PutAdvancing(req), r.(slots := r.slots[r.tail := req]))) else None
    case PutAdvancing(req) => Some(Update(s, PutCounting(req), r.(tail := (r.tail + 1) % c.cap)))
    case PutCounting(req) => Some(Update(s, PutSignalling, r.(count := r.count + 1)).(events := [Put(req)]))
    case PutUnlocking => Some(Unlock(s, Accepting))
    case _ => None
  }

  /** Where one round of the SFF scan, or the end of it, leads. */
  function Scan(c: Config, r: Ring, i: int, minLogical: int, minSize: int): Option<Pc>
    requires c.cap >= 1
  {
    if i < r.count then
      var idx := (r.head + i) % c.cap;
      if !InSlots(r, idx) then None
      else if r.slots[idx].filesize < minSize then Some(SffScanning(i + 1, i, r.slots[idx].filesize))
      else Some(SffScanning(i + 1, minLogical, minSize))
    else
      var minPhys := (r.head + minLogical) % c.cap;
      if InSlots(r, minPhys) then Some(SffShifting(r.slots[minPhys], minPhys, (minPhys + 1) % c.cap)) else None
  }

  /** One round of the SFF compaction, or the end of it. */
  function Shift(c: Config, s: State, req: Request, cur: int, next: int): Option<Effect>
    requires c.cap >= 1
  {
    var r := s.ring;
    if next == r.tail then Some(Update(s, GetCounting(req), r.(tail := (r.tail - 1 + c.cap) % c.cap)))
    else if InSlots(r, cur) && InSlots(r, next) then
      Some(Update(s, SffShifting(req, next, (next + 1) % c.cap), r.(slots := r.slots[cur := r.slots[next]])))
    else None
  }

  function GetMove(c: Config, s: State, t: nat): Option<Effect>
    requires t < |s.threads| && c.cap >= 1
  {
    var r := s.ring;
    match s.threads[t]
    case GetLocking => Lock(s, t, GetTesting)
    case GetWoken => Lock(s, t, GetTesting)
    case GetTesting =>
      if r.count == 0 then Some(Unlock(s, GetAsleep))
      else if c.policy.Fifo? then Some(Goto(s, FifoLoading))
      else if InSlots(r, r.head) then Some(Goto(s, SffScanning(1, 0, r.slots[r.head].filesize)))
      else None
    case FifoLoading => if InSlots(r, r.head) then Some(Goto(s, FifoAdvancing(r.slots[r.head]))) else None
    case FifoAdvancing(req) => Some(Update(s, GetCounting(req), r.(head := (r.head + 1) % c.cap)))
    case SffScanning(i, minLogical, minSize) =>
      var next := Scan(c, r, i, minLogical, minSize);
      if next.Some? then Some(Goto(s, next.value)) else None
    case SffShifting(req, cur, next) => Shift(c, s, req, cur, next)
    case GetCounting(req) => Some(Update(s, GetSignalling(req), r.(count := r.count - 1)).(events := [Got(req)]))
    case GetUnlocking(req) => Some(Unlock(s, Serving(req)))
    case _ => None
  }

  function ServeMove(c: Config, s: State, t: nat): Option<Effect>
    requires t < |s.threads|
  {
    match s.threads[t]
    case Serving(req) =>
      (match ServeOutcome(c.fs, req)
       case Replies(reply) => Some(Goto(s, Sending(req.connFd, Writes(c.fs, reply))))
       case _ => Some(Access(s, Serving(req), s.world.(failed := true))))
    case Sending(fd, todo) =>
      if todo != [] then Some(Access(s, Sending(fd, todo[1..]), WriteTo(s.world, fd, todo[0])))
      else Some(Access(s, GetLocking, CloseFd(s.world, fd)))
    case _ => None
  }

  function Move(c: Config, s: State, t: nat): Option<Effect>
    requires t < |s.threads| && c.cap >= 1
  {
    var pc := s.threads[t];
    if pc.Parsing? || pc.Refusing? then AcceptorMove(c, s, t)
    else if pc.Serving? || pc.Sending? then ServeMove(c, s, t)
    else if pc.OfAcceptor() then PutMove(c, s, t)
    else GetMove(c, s, t)
  }

  function After(s: State, t: nat, e: Effect): State
    requires t < |s.threads|
  {
    State(e.ring, e.mutex, s.threads[t := e.pc], e.world, s.log + e.events)
  }

  // ---- The steps of the system ----

  datatype Step =
      /** Thread t does what comes next in its code. */
    | Act(t: nat)
      /** accept gives thread t a new connection on a number that is not open. */
    | Accept(t: nat, fd: int, conn: Conn)
      /** Thread t signals and the kernel wakes thread wakee. */
    | Signal(t: nat, wakee: nat)
      /** Thread t signals and nobody is asleep. */
    | SignalNobody(t: nat)
      /** Thread t wakes up without a signal. */
    | Spurious(t: nat)

  /** The thread that a signal from pc can wake. */
  predicate Hears(pc: Pc, sleeper: Pc) {
    (pc.PutSignalling? && sleeper.GetAsleep?) || (pc.GetSignalling? && sleeper.PutAsleep?)
  }

  function Signalled(pc: Pc): Pc
    requires pc.PutSignalling? || pc.GetSignalling?
  {
    if pc.PutSignalling? then PutUnlocking else GetUnlocking(pc.req)
  }

  function Woken(pc: Pc): Pc
    requires pc.GetAsleep? || pc.PutAsleep?
  {
    if pc.GetAsleep? then GetWoken else PutWoken(pc.req)
  }

  /** The steps in which thread t does not simply go on with its own code. */
  function Sync(s: State, step: Step): Option<State>
    requires step.t < |s.threads| && !step.Act?
  {
    var t := step.t;
    var pc := s.threads[t];
    match step
    case Accept(_, fd, conn) =>
      if pc.Accepting? && fd !in s.world.open then
        Some(After(s, t, Access(s, Parsing(fd), AcceptOn(s.world, fd, conn))))
      else None
    case Signal(_, wakee) =>
      if wakee < |s.threads| && Hears(pc, s.threads[wakee]) then
        Some(s.(threads := s.threads[t := Signalled(pc)][wakee := Woken(s.threads[wakee])]))
      else None
    case SignalNobody(_) =>
      if (pc.PutSignalling? || pc.GetSignalling?) && forall k :: 0 <= k < |s.threads| ==> !Hears(pc, s.threads[k])
      then Some(After(s, t, Goto(s, Signalled(pc))))
      else None
    case Spurious(_) =>
      if pc.GetAsleep? || pc.PutAsleep? then Some(After(s, t, Goto(s, Woken(pc)))) else None
  }

  /** The state after the step; None when the step is not possible. A process
      that has died takes no more steps. */
  function Take(c: Config, s: State, step: Step): Option<State>
    requires c.cap >= 1
  {
    if s.world.failed || step.t >= |s.threads| then None
    else if !step.Act? then Sync(s, step)
    else
      match Move(c, s, step.t)
      case None => None
      case Some(e) => Some(After(s, step.t, e))
  }

  /** The state after a whole run. */
  function Run(c: Config, s: State, steps: seq<Step>): Option<State>
    requires c.cap >= 1
    decreases |steps|
  {
    if steps == [] then Some(s)
    else
      match Take(c, s, steps[0])
      case None => None
      case Some(s') => Run(c, s', steps[1..])
  }

  ghost predicate Reachable(c: Config, s: State)
    requires c.cap >= 1
  {
    exists s0, steps :: Init(c, s0) && Run(c, s0, steps) == Some(s)
  }

  lemma {:induction false} RunConcat(c: Config, s: State, a: seq<Step>, b: seq<Step>)
    requires c.cap >= 1 && Run(c, s, a).Some?
    ensures Run(c, s, a + b) == Run(c, Run(c, s, a).value, b)
    decreases |a|
  {
    if a == [] {
      assert a + b == b;
    } else {
      assert (a + b)[1..] == a[1..] + b;
      RunConcat(c, Take(c, s, a[0]).value, a[1..], b);
    }
  }

  lemma ReachableNext(c: Config, s: State, step: Step)
    requires c.cap >= 1 && Reachable(c, s) && Take(c, s, step).Some?
    ensures Reachable(c, Take(c, s, step).value)
  {
    var s0, steps :| Init(c, s0) && Run(c, s0, steps) == Some(s);
    var s' := Take(c, s, step).value;
    assert Run(c, s', [step][1..]) == Some(s');
    RunConcat(c, s0, steps, [step]);
    assert Run(c, s0, steps + [step]) == Some(s');
  }

  // ---- Facts about single steps that every invariant uses ----

  /** Only the holder touches the ring, the log and the mutex, and it does not
      touch the kernel's tables meanwhile. */
  predicate RespectsTheLock(s: State, t: nat, e: Effect)
    requires t < |s.threads|
  {
    var pc := s.threads[t];
    && (pc.InCritical() && e.pc.InCritical() ==> e.mutex == s.mutex)
    && (pc.InCritical() && !e.pc.InCritical() ==> e.mutex == None)
    && (!pc.InCritical() && e.pc.InCritical() ==>
          s.mutex == None && e.mutex == Some(t) && (e.pc.PutTesting? || e.pc.GetTesting?))
    && (!pc.InCritical() && !e.pc.InCritical() ==> e.mutex == s.mutex)
    && (!pc.InCritical() ==> e.ring == s.ring && e.events == [])
    && (pc.InCritical() || e.pc.InCritical() ==> e.world == s.world)
    && (pc.OfAcceptor() == e.pc.OfAcceptor())
  }

  lemma MoveRespectsTheLock(c: Config, s: State, t: nat)
    requires t < |s.threads| && c.cap >= 1 && Move(c, s, t).Some?
    ensures RespectsTheLock(s, t, Move(c, s, t).value)
  {
    var pc := s.threads[t];
    if pc.Parsing? || pc.Refusing? {
      ParsingIsOutside(c, s, t);
    } else if pc.Serving? || pc.Sending? {
      ServingIsOutside(c, s, t);
    } else if pc.OfAcceptor() {
      PuttingRespectsTheLock(c, s, t);
    } else {
      GettingRespectsTheLock(c, s, t);
    }
  }

  lemma ParsingIsOutside(c: Config, s: State, t: nat)
    requires t < |s.threads| && AcceptorMove(c, s, t).Some?
    ensures RespectsTheLock(s, t, AcceptorMove(c, s, t).value)
  {
    if s.threads[t].Parsing? {
      var fd := s.threads[t].fd;
      DecidedIsOutside(c, s, t, ParseOutcome(c.fs, s.world.conns[s.world.open[fd]], fd));
    }
  }

  lemma DecidedIsOutside(c: Config, s: State, t: nat, p: Parsed)
    requires t < |s.threads| && s.threads[t].Parsing? && Decided(c, s, s.threads[t].fd, p).Some?
    ensures RespectsTheLock(s, t, Decided(c, s, s.threads[t].fd, p).value)
  {
    var fd := s.threads[t].fd;
    if p.Rejected? {
      RefusingIsOutside(s, t, fd, Writes(c.fs, Refused(p.cause, p.why)));
    }
  }

  lemma RefusingIsOutside(s: State, t: nat, fd: int, todo: seq<string>)
    requires t < |s.threads| && s.threads[t].Parsing?
    ensures RespectsTheLock(s, t, Goto(s, Refusing(fd, todo)))
  {
  }

  lemma ServingIsOutside(c: Config, s: State, t: nat)
    requires t < |s.threads| && ServeMove(c, s, t).Some?
    ensures RespectsTheLock(s, t, ServeMove(c, s, t).value)
  {
  }

  lemma PuttingRespectsTheLock(c: Config, s: State, t: nat)
    requires t < |s.threads| && c.cap >= 1 && PutMove(c, s, t).Some?
    ensures RespectsTheLock(s, t, PutMove(c, s, t).value)
  {
  }

  lemma GettingRespectsTheLock(c: Config, s: State, t: nat)
    requires t < |s.threads| && c.cap >= 1 && GetMove(c, s, t).Some?
    ensures RespectsTheLock(s, t, GetMove(c, s, t).value)
  {
  }
}
