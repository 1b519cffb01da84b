/** Who holds which descriptor: every open one is in the hands of exactly one
    thread or in exactly one buffer entry, and of nobody twice. */
module Ownership {
  import opened Requests
  import opened Folds
  import opened BoundedQueue
  import opened RequestHandling
  import opened Descriptors
  import opened ServerModel
  import opened Linearisation

  /** The descriptor that a thread answers for at this point of its code. */
  function Token(pc: Pc): Option<int> {
    match pc
    case Parsing(fd) => Some(fd)
    case Refusing(fd, _) => Some(fd)
    case PutLocking(req) => Some(req.connFd)
    case PutTesting(req) => Some(req.connFd)
    case PutAsleep(req) => Some(req.connFd)
    case PutWoken(req) => Some(req.connFd)
    case PutStoring(req) => Some(req.connFd)
    case PutAdvancing(req) => Some(req.connFd)
    case PutCounting(req) => Some(req.connFd)
    case GetSignalling(req) => Some(req.connFd)
    case GetUnlocking(req) => Some(req.connFd)
    case Serving(req) => Some(req.connFd)
    case Sending(fd, _) => Some(fd)
    case _ => None
  }

  function HoldsFd(token: Option<int>, fd: int): nat {
    if token == Some(fd) then 1 else 0
  }

  function HoldsIt(fd: int): Pc -> nat {
    pc => HoldsFd(Token(pc), fd)
  }

  function CarriesIt(fd: int): Request -> nat {
    (req: Request) => HoldsFd(Some(req.connFd), fd)
  }

  function HoldsAny(): Pc -> nat {
    pc => if Token(pc).Some? then 1 else 0
  }

  /** How many threads answer for fd. */
  function Holders(ts: seq<Pc>, fd: int): nat {
    Count(HoldsIt(fd), ts)
  }

  /** How many queue entries carry fd. */
  function Carriers(q: seq<Request>, fd: int): nat {
    Count(CarriesIt(fd), q)
  }

  /** How many threads answer for a descriptor at all. */
  function Busy(ts: seq<Pc>): nat {
    Count(HoldsAny(), ts)
  }

  /** Every open descriptor is held exactly once and no other is held at all; so
      there are as many open ones as busy threads and queue entries. */
  ghost predicate Handed(ts: seq<Pc>, q: seq<Request>, open: map<int, nat>) {
    && (forall fd :: Holders(ts, fd) + Carriers(q, fd) == if fd in open then 1 else 0)
    && |open| == Busy(ts) + |q|
  }

  ghost predicate OwnInv(c: Config, s: State) {
    && c.cap >= 1
    && Replay(c.policy, c.cap, [], s.log).Some?
    && Shaped(s.world)
    && Handed(s.threads, Queue(c, s), s.world.open)
  }

  lemma ThreadUpdate(ts: seq<Pc>, t: nat, pc: Pc)
    requires t < |ts|
    ensures forall fd :: Holders(ts[t := pc], fd) + HoldsFd(Token(ts[t]), fd)
                         == Holders(ts, fd) + HoldsFd(Token(pc), fd)
    ensures Busy(ts[t := pc]) + (if Token(ts[t]).Some? then 1 else 0) ==
            Busy(ts) + (if Token(pc).Some? then 1 else 0)
  {
    CountUpdate(HoldsAny(), ts, t, pc);
    forall fd ensures Holders(ts[t := pc], fd) + HoldsFd(Token(ts[t]), fd)
                      == Holders(ts, fd) + HoldsFd(Token(pc), fd) {
      CountUpdate(HoldsIt(fd), ts, t, pc);
    }
  }

  lemma CarriersSplit(q: seq<Request>, m: nat, fd: int)
    requires m < |q|
    ensures Carriers(q, fd) == Carriers(Without(q, m), fd) + HoldsFd(Some(q[m].connFd), fd)
  {
    var f := CarriesIt(fd);
    assert q == q[..m] + ([q[m]] + q[m + 1..]);
    CountConcat(f, q[..m], [q[m]] + q[m + 1..]);
    CountConcat(f, [q[m]], q[m + 1..]);
    CountConcat(f, q[..m], q[m + 1..]);
    CountOne(f, q[m]);
  }

  /** A put hands its descriptor to the queue, a get takes it out. */
  lemma CarriersAfterEvent(p: Policy, cap: nat, q: seq<Request>, e: Event, fd: int)
    requires Apply(p, cap, q, e).Some?
    ensures var q' := Apply(p, cap, q, e).value;
            && (e.Put? ==> Carriers(q', fd) == Carriers(q, fd) + HoldsFd(Some(e.req.connFd), fd))
            && (e.Got? ==> Carriers(q, fd) == Carriers(q', fd) + HoldsFd(Some(e.req.connFd), fd))
            && |q'| + (if e.Got? then 1 else 0) == |q| + (if e.Put? then 1 else 0)
  {
    match e
    case Put(r) =>
      CountConcat(CarriesIt(fd), q, [r]);
      CountOne(CarriesIt(fd), r);
    case Got(r) => CarriersSplit(q, Chosen(p, q), fd);
  }

  /** How one thread's step passes descriptors on. */
  ghost predicate HandsOn(s: State, t: nat, e: Effect)
    requires t < |s.threads|
  {
    var pc := s.threads[t];
    && |e.events| <= 1
    && (e.events != [] && e.events[0].Put? ==>
          Token(pc) == Some(e.events[0].req.connFd) && Token(e.pc) == None)
    && (e.events != [] && e.events[0].Got? ==>
          Token(pc) == None && Token(e.pc) == Some(e.events[0].req.connFd))
    && (e.events != [] ==> e.world == s.world)
    && (e.events == [] ==>
          || (Token(e.pc) == Token(pc) && e.world.open == s.world.open && (Shaped(s.world) ==> Shaped(e.world)))
          || ((pc.Refusing? || pc.Sending?) && Token(e.pc) == None && e.world == CloseFd(s.world, pc.fd)))
  }

  lemma ParsingHandsOn(c: Config, s: State, t: nat)
    requires t < |s.threads| && AcceptorMove(c, s, t).Some?
    ensures HandsOn(s, t, AcceptorMove(c, s, t).value)
  {
    if s.threads[t].Parsing? {
      var fd := s.threads[t].fd;
      DecidedHandsOn(c, s, t, ParseOutcome(c.fs, s.world.conns[s.world.open[fd]], fd));
    }
  }

  lemma DecidedHandsOn(c: Config, s: State, t: nat, p: Parsed)
    requires t < |s.threads| && s.threads[t].Parsing? && Decided(c, s, s.threads[t].fd, p).Some?
    requires p.Ready? ==> p.req.connFd == s.threads[t].fd
    ensures HandsOn(s, t, Decided(c, s, s.threads[t].fd, p).value)
  {
    if p.Rejected? {
      KeepsInHand(s, t, Refusing(s.threads[t].fd, Writes(c.fs, Refused(p.cause, p.why))));
    } else {
      KeepsInHand(s, t, PutLocking(p.req));
    }
  }

  lemma KeepsInHand(s: State, t: nat, pc: Pc)
    requires t < |s.threads| && Token(pc) == Token(s.threads[t])
    ensures HandsOn(s, t, Goto(s, pc))
  {
  }

  lemma PuttingHandsOn(c: Config, s: State, t: nat)
    requires t < |s.threads| && c.cap >= 1 && PutMove(c, s, t).Some?
    ensures HandsOn(s, t, PutMove(c, s, t).value)
  {
  }

  lemma GettingHandsOn(c: Config, s: State, t: nat)
    requires t < |s.threads| && c.cap >= 1 && GetMove(c, s, t).Some?
    ensures HandsOn(s, t, GetMove(c, s, t).value)
  {
  }

  lemma ServingHandsOn(c: Config, s: State, t: nat)
    requires t < |s.threads| && ServeMove(c, s, t).Some?
    ensures HandsOn(s, t, ServeMove(c, s, t).value)
  {
  }

  lemma MoveHandsOn(c: Config, s: State, t: nat)
    requires t < |s.threads| && c.cap >= 1 && Move(c, s, t).Some?
    ensures HandsOn(s, t, Move(c, s, t).value)
  {
    var pc := s.threads[t];
    if pc.Parsing? || pc.Refusing? {
      ParsingHandsOn(c, s, t);
    } else if pc.Serving? || pc.Sending? {
      ServingHandsOn(c, s, t);
    } else if pc.OfAcceptor() {
      PuttingHandsOn(c, s, t);
    } else {
      GettingHandsOn(c, s, t);
    }
  }

  /** What a thread holds is open. */
  lemma HeldIsOpen(c: Config, s: State, t: nat, fd: int)
    requires OwnInv(c, s) && t < |s.threads| && Token(s.threads[t]) == Some(fd)
    ensures fd in s.world.open
  {
    CountAtLeast(HoldsIt(fd), s.threads, t);
  }

  lemma HandedOver(p: Policy, cap: nat, ts: seq<Pc>, t: nat, pc: Pc, q: seq<Request>, open: map<int, nat>, e: Event)
    requires Handed(ts, q, open) && t < |ts| && Apply(p, cap, q, e).Some?
    requires e.Put? ==> Token(ts[t]) == Some(e.req.connFd) && Token(pc) == None
    requires e.Got? ==> Token(ts[t]) == None && Token(pc) == Some(e.req.connFd)
    ensures Handed(ts[t := pc], Apply(p, cap, q, e).value, open)
  {
    var q' := Apply(p, cap, q, e).value;
    ThreadUpdate(ts, t, pc);
    CarriersAfterEvent(p, cap, q, e, 0);
    forall fd ensures Holders(ts[t := pc], fd) + Carriers(q', fd) == if fd in open then 1 else 0 {
      CarriersAfterEvent(p, cap, q, e, fd);
    }
  }

  lemma HandedBack(ts: seq<Pc>, t: nat, pc: Pc, q: seq<Request>, open: map<int, nat>, fd: int)
    requires Handed(ts, q, open) && t < |ts| && Token(ts[t]) == Some(fd) && Token(pc) == None
    ensures fd in open && Handed(ts[t := pc], q, open - {fd})
  {
    ThreadUpdate(ts, t, pc);
    CountAtLeast(HoldsIt(fd), ts, t);
    WithoutOne(open, fd);
  }

  lemma HandedIn(ts: seq<Pc>, t: nat, pc: Pc, q: seq<Request>, open: map<int, nat>, fd: int, n: nat)
    requires Handed(ts, q, open) && t < |ts| && Token(ts[t]) == None && Token(pc) == Some(fd) && fd !in open
    ensures Handed(ts[t := pc], q, open[fd := n])
  {
    ThreadUpdate(ts, t, pc);
    WithOneMore(open, fd, n);
  }

  lemma KeptInHand(ts: seq<Pc>, t: nat, pc: Pc, q: seq<Request>, open: map<int, nat>)
    requires Handed(ts, q, open) && t < |ts| && Token(ts[t]) == Token(pc)
    ensures Handed(ts[t := pc], q, open)
  {
    ThreadUpdate(ts, t, pc);
  }

  lemma OwnInvEvent(c: Config, s: State, t: nat, e: Effect)
    requires OwnInv(c, s) && t < |s.threads| && HandsOn(s, t, e) && e.events != []
    requires Replay(c.policy, c.cap, [], s.log + e.events).Some?
    ensures OwnInv(c, After(s, t, e))
  {
    assert e.events == [e.events[0]];
    ReplayAppend(c.policy, c.cap, [], s.log, e.events[0]);
    HandedOver(c.policy, c.cap, s.threads, t, e.pc, Queue(c, s), s.world.open, e.events[0]);
  }

  lemma OwnInvClose(c: Config, s: State, t: nat, e: Effect)
    requires OwnInv(c, s) && t < |s.threads| && e.events == []
    requires s.threads[t].Refusing? || s.threads[t].Sending?
    requires Token(e.pc) == None && e.world == CloseFd(s.world, s.threads[t].fd)
    ensures OwnInv(c, After(s, t, e))
  {
    assert s.log + e.events == s.log;
    HandedBack(s.threads, t, e.pc, Queue(c, s), s.world.open, s.threads[t].fd);
    CloseIsShaped(s.world, s.threads[t].fd);
  }

  lemma CloseIsShaped(w: World, fd: int)
    requires Shaped(w) && fd in w.open
    ensures Shaped(CloseFd(w, fd)) && CloseFd(w, fd).open == w.open - {fd}
  {
  }

  lemma OwnInvSameOpen(c: Config, s: State, t: nat, e: Effect)
    requires OwnInv(c, s) && t < |s.threads| && e.events == []
    requires Token(e.pc) == Token(s.threads[t]) && e.world.open == s.world.open && Shaped(e.world)
    ensures OwnInv(c, After(s, t, e))
  {
    assert s.log + e.events == s.log;
    KeptInHand(s.threads, t, e.pc, Queue(c, s), s.world.open);
  }

  lemma OwnInvAfter(c: Config, s: State, t: nat, e: Effect)
    requires OwnInv(c, s) && t < |s.threads| && HandsOn(s, t, e)
    requires Replay(c.policy, c.cap, [], s.log + e.events).Some?
    ensures OwnInv(c, After(s, t, e))
  {
    if e.events != [] {
      OwnInvEvent(c, s, t, e);
    } else if Token(e.pc) == Token(s.threads[t]) && e.world.open == s.world.open {
      OwnInvSameOpen(c, s, t, e);
    } else {
      OwnInvClose(c, s, t, e);
    }
  }

  lemma OwnInvAccept(c: Config, s: State, t: nat, fd: int, conn: Conn)
    requires OwnInv(c, s) && t < |s.threads| && s.threads[t].Accepting? && fd !in s.world.open
    ensures OwnInv(c, After(s, t, Access(s, Parsing(fd), AcceptOn(s.world, fd, conn))))
  {
    HandedIn(s.threads, t, Parsing(fd), Queue(c, s), s.world.open, fd, |s.world.conns|);
    assert s.log + [] == s.log;
  }

  lemma OwnInvWake(c: Config, s: State, t: nat, pc: Pc)
    requires OwnInv(c, s) && t < |s.threads| && Token(pc) == Token(s.threads[t])
    ensures OwnInv(c, s.(threads := s.threads[t := pc]))
  {
    KeptInHand(s.threads, t, pc, Queue(c, s), s.world.open);
  }

  lemma OwnInvSignal(c: Config, s: State, t: nat, wakee: nat)
    requires OwnInv(c, s) && t < |s.threads| && wakee < |s.threads| && Hears(s.threads[t], s.threads[wakee])
    ensures OwnInv(c, s.(threads := s.threads[t := Signalled(s.threads[t])][wakee := Woken(s.threads[wakee])]))
  {
    var q, open := Queue(c, s), s.world.open;
    KeptInHand(s.threads, t, Signalled(s.threads[t]), q, open);
    KeptInHand(s.threads[t := Signalled(s.threads[t])], wakee, Woken(s.threads[wakee]), q, open);
  }

  lemma OwnInvAct(c: Config, s: State, t: nat)
    requires c.cap >= 1 && OwnInv(c, s) && t < |s.threads| && Move(c, s, t).Some?
    requires Replay(c.policy, c.cap, [], After(s, t, Move(c, s, t).value).log).Some?
    ensures OwnInv(c, After(s, t, Move(c, s, t).value))
  {
    MoveHandsOn(c, s, t);
    OwnInvAfter(c, s, t, Move(c, s, t).value);
  }

  lemma OwnInvAwakened(c: Config, s: State, t: nat, pc: Pc)
    requires OwnInv(c, s) && t < |s.threads| && Token(pc) == Token(s.threads[t])
    ensures OwnInv(c, After(s, t, Goto(s, pc)))
  {
    OwnInvWake(c, s, t, pc);
    assert After(s, t, Goto(s, pc)) == s.(threads := s.threads[t := pc]);
  }

  lemma OwnInvSync(c: Config, s: State, step: Step)
    requires OwnInv(c, s) && step.t < |s.threads| && !step.Act? && Sync(s, step).Some?
    ensures OwnInv(c, Sync(s, step).value)
  {
    var t := step.t;
    match step
    case Accept(_, fd, conn) => OwnInvAccept(c, s, t, fd, conn);
    case Signal(_, wakee) => OwnInvSignal(c, s, t, wakee);
    case SignalNobody(_) => OwnInvAwakened(c, s, t, Signalled(s.threads[t]));
    case Spurious(_) => OwnInvAwakened(c, s, t, Woken(s.threads[t]));
  }

  lemma OwnInvStep(c: Config, s: State, step: Step)
    requires c.cap >= 1 && OwnInv(c, s) && Take(c, s, step).Some?
    requires Replay(c.policy, c.cap, [], Take(c, s, step).value.log).Some?
    ensures OwnInv(c, Take(c, s, step).value)
  {
    if step.Act? {
      OwnInvAct(c, s, step.t);
    } else {
      OwnInvSync(c, s, step);
    }
  }

  // ---- What the invariant is for ----

  lemma HeldOnce(c: Config, s: State, fd: int)
    requires OwnInv(c, s)
    ensures Holders(s.threads, fd) + Carriers(Queue(c, s), fd) <= 1
  {
  }

  /** No two threads hold the same descriptor. */
  lemma ThreadsHoldDifferentDescriptors(c: Config, s: State, t: nat, u: nat, fd: int)
    requires OwnInv(c, s) && t < |s.threads| && u < |s.threads| && t != u
    requires Token(s.threads[t]) == Some(fd)
    ensures Token(s.threads[u]) != Some(fd)
  {
    if Token(s.threads[u]) == Some(fd) {
      CountTwo(HoldsIt(fd), s.threads, if t < u then t else u, if t < u then u else t);
      HeldOnce(c, s, fd);
    }
  }

  /** No thread holds a descriptor that waits in the queue. */
  lemma ThreadAndQueueHoldDifferentDescriptors(c: Config, s: State, t: nat, k: nat, fd: int)
    requires OwnInv(c, s) && t < |s.threads| && k < |Queue(c, s)| && Token(s.threads[t]) == Some(fd)
    ensures fd != Queue(c, s)[k].connFd
  {
    CountAtLeast(HoldsIt(fd), s.threads, t);
    CarriersSplit(Queue(c, s), k, fd);
  }

  /** No two entries of the queue carry the same descriptor. */
  lemma QueueHoldsDifferentDescriptors(c: Config, s: State, j: nat, k: nat)
    requires OwnInv(c, s) && j < k < |Queue(c, s)|
    ensures Queue(c, s)[j].connFd != Queue(c, s)[k].connFd
  {
    var q := Queue(c, s);
    var fd := q[k].connFd;
    CarriersSplit(q, k, fd);
    CarriersSplit(Without(q, k), j, fd);
  }

  /** An open descriptor is in the hands of some thread or of some queue entry. */
  lemma OpenIsHeld(c: Config, s: State, fd: int)
    requires OwnInv(c, s) && fd in s.world.open
    ensures (exists t :: 0 <= t < |s.threads| && Token(s.threads[t]) == Some(fd))
            || (exists k :: 0 <= k < |Queue(c, s)| && Queue(c, s)[k].connFd == fd)
  {
    if Holders(s.threads, fd) >= 1 {
      var t := CountSome(HoldsIt(fd), s.threads);
    } else {
      var k := CountSome(CarriesIt(fd), Queue(c, s));
    }
  }

  /** At most one connection per thread and per buffer slot is open. */
  lemma OpenBound(c: Config, s: State)
    requires OwnInv(c, s)
    ensures |s.world.open| <= |s.threads| + c.cap
  {
    Conservation(c.policy, c.cap, [], s.log);
    CountAtMost(HoldsAny(), s.threads);
  }
}
