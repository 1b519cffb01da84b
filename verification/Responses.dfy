/** What every connection gets: the bytes on it are always the beginning of what
    the pipeline of request_parse and request_serve owes it, and when it has been
    closed it has been closed once and has got all of them. */
module Responses {
  import opened Requests
  import opened BoundedQueue
  import opened LineReader
  import opened RequestHandling
  import opened Descriptors
  import opened ServerModel
  import opened Linearisation
  import opened Ownership

  // ---- The ledger ----

  /** What is due to one connection: the request that parsing makes of it, up to
      the descriptor number; the bytes it is to get, when it is to get any; and
      whether serving it makes an _or_die check fail. */
  datatype Entry = Entry(ready: Option<Request>, owed: Option<string>, dies: bool)

  function EntryOf(fs: FileSystem, conn: Conn): Entry {
    var p, o := ParseOutcome(fs, conn, 0), PipelineOutcome(fs, conn, 0);
    Entry(if p.Ready? then Some(p.req) else None,
          if o.Replies? then Some(Join(Writes(fs, o.reply))) else None,
          o.Dies?)
  }

  function Ledger(fs: FileSystem, conns: seq<Conn>): seq<Entry> {
    seq(|conns|, n requires 0 <= n < |conns| => EntryOf(fs, conns[n]))
  }

  // ---- The invariant ----

  ghost predicate Fits(l: seq<Entry>, w: World) {
    Shaped(w) && |l| == |w.conns|
  }

  /** The thread that holds fd still has to write todo. */
  ghost predicate Owes(l: seq<Entry>, w: World, fd: int, todo: seq<string>) {
    Fits(l, w) && fd in w.open && l[w.open[fd]].owed == Some(w.output[w.open[fd]] + Join(todo))
  }

  /** The request is what request_parse made of its connection, and nothing has
      been written there yet. */
  ghost predicate Prepared(l: seq<Entry>, w: World, req: Request) {
    && Fits(l, w) && req.connFd in w.open
    && w.output[w.open[req.connFd]] == ""
    && l[w.open[req.connFd]].ready == Some(req.(connFd := 0))
  }

  ghost predicate ThreadOk(l: seq<Entry>, w: World, pc: Pc) {
    match pc
    case Parsing(fd) => Fits(l, w) && fd in w.open && w.output[w.open[fd]] == ""
    case Refusing(fd, todo) => Owes(l, w, fd, todo)
    case PutLocking(req) => Prepared(l, w, req)
    case PutTesting(req) => Prepared(l, w, req)
    case PutAsleep(req) => Prepared(l, w, req)
    case PutWoken(req) => Prepared(l, w, req)
    case PutStoring(req) => Prepared(l, w, req)
    case PutAdvancing(req) => Prepared(l, w, req)
    case PutCounting(req) => Prepared(l, w, req)
    case GetSignalling(req) => Prepared(l, w, req)
    case GetUnlocking(req) => Prepared(l, w, req)
    case Serving(req) => Prepared(l, w, req)
    case Sending(fd, todo) => Owes(l, w, fd, todo)
    case _ => true
  }

  function Sum(ns: seq<nat>): nat {
    if ns == [] then 0 else Sum(ns[..|ns| - 1]) + ns[|ns| - 1]
  }

  predicate IsOpen(w: World, n: nat) {
    exists fd :: fd in w.open && w.open[fd] == n
  }

  /** Connection n is done: closed once, with its whole reply on it. */
  ghost predicate Finished(l: seq<Entry>, w: World, n: nat)
    requires Fits(l, w) && n < |w.conns|
  {
    w.closes[n] == 1 && l[n].owed == Some(w.output[n])
  }

  /** Descriptors denote different connections, which have not been closed; every
      other connection is finished. */
  ghost predicate TableOk(l: seq<Entry>, w: World) {
    && Fits(l, w)
    && (forall f, g :: f in w.open && g in w.open && f != g ==> w.open[f] != w.open[g])
    && (forall f :: f in w.open ==> w.closes[w.open[f]] == 0)
    && (forall n :: 0 <= n < |w.conns| ==> IsOpen(w, n) || Finished(l, w, n))
    && |w.conns| == Sum(w.closes) + |w.open|
  }

  ghost predicate SomeoneDies(l: seq<Entry>) {
    exists n :: 0 <= n < |l| && l[n].dies
  }

  ghost predicate ConnInv(c: Config, s: State) {
    var l := Ledger(c.fs, s.world.conns);
    && c.cap >= 1
    && Replay(c.policy, c.cap, [], s.log).Some?
    && TableOk(l, s.world)
    && (forall t :: 0 <= t < |s.threads| ==> ThreadOk(l, s.world, s.threads[t]))
    && (forall k :: 0 <= k < |Queue(c, s)| ==> Prepared(l, s.world, Queue(c, s)[k]))
    && (s.world.failed ==> SomeoneDies(l))
  }

  // ---- What an access to one descriptor leaves alone ----

  ghost predicate OnlyTouches(w: World, w': World, fd: int) {
    forall g :: g in w.open && g != fd ==>
      g in w'.open && w'.open[g] == w.open[g] && w'.open[g] < |w'.output| && w.open[g] < |w.output|
      && w'.output[w'.open[g]] == w.output[w.open[g]]
  }

  lemma OthersPrepared(l: seq<Entry>, l': seq<Entry>, w: World, w': World, fd: int, req: Request)
    requires l <= l' && Fits(l', w') && OnlyTouches(w, w', fd) && Prepared(l, w, req) && req.connFd != fd
    ensures Prepared(l', w', req)
  {
    assert l'[w.open[req.connFd]] == l[w.open[req.connFd]];
  }

  lemma OthersOk(l: seq<Entry>, l': seq<Entry>, w: World, w': World, fd: int, pc: Pc)
    requires l <= l' && Fits(l', w') && OnlyTouches(w, w', fd) && ThreadOk(l, w, pc) && Token(pc) != Some(fd)
    ensures ThreadOk(l', w', pc)
  {
    if Token(pc).Some? {
      var g := Token(pc).value;
      assert g in w.open && l'[w.open[g]] == l[w.open[g]];
    }
  }

  // ---- The kernel calls ----

  lemma SumUpdate(ns: seq<nat>, n: nat, v: nat)
    requires n < |ns|
    ensures Sum(ns[n := v]) + ns[n] == Sum(ns) + v
  {
    var init := ns[..|ns| - 1];
    if n == |ns| - 1 {
      assert ns[n := v][..|ns| - 1] == init;
    } else {
      assert ns[n := v][..|ns| - 1] == init[n := v];
      SumUpdate(init, n, v);
    }
  }

  lemma WriteKeeps(l: seq<Entry>, w: World, fd: int, todo: seq<string>)
    requires TableOk(l, w) && Owes(l, w, fd, todo) && todo != []
    ensures var w' := WriteTo(w, fd, todo[0]);
            TableOk(l, w') && Owes(l, w', fd, todo[1..]) && OnlyTouches(w, w', fd)
  {
    var w', m := WriteTo(w, fd, todo[0]), w.open[fd];
    assert w'.output[m] + Join(todo[1..]) == w.output[m] + Join(todo);
    forall n | 0 <= n < |w'.conns| ensures IsOpen(w', n) || Finished(l, w', n) {
      if IsOpen(w, n) {
        var f :| f in w.open && w.open[f] == n;
        assert f in w'.open && w'.open[f] == n;
      } else {
        assert n != m;
      }
    }
  }

  lemma CloseKeeps(l: seq<Entry>, w: World, fd: int)
    requires TableOk(l, w) && Owes(l, w, fd, [])
    ensures var w' := CloseFd(w, fd); TableOk(l, w') && OnlyTouches(w, w', fd)
  {
    CloseCounts(l, w, fd);
    OthersStayPut(l, w, fd);
    OthersStayApart(l, w, fd);
  }

  lemma CloseCounts(l: seq<Entry>, w: World, fd: int)
    requires TableOk(l, w) && fd in w.open
    ensures var w' := CloseFd(w, fd); |w'.conns| == Sum(w'.closes) + |w'.open|
  {
    assert w.closes[w.open[fd]] == 0;
    SumUpdate(w.closes, w.open[fd], 1);
    WithoutOne(w.open, fd);
  }

  lemma OthersStayApart(l: seq<Entry>, w: World, fd: int)
    requires TableOk(l, w) && fd in w.open
    ensures var w' := CloseFd(w, fd);
            && (forall f, g :: f in w'.open && g in w'.open && f != g ==> w'.open[f] != w'.open[g])
            && (forall f :: f in w'.open ==> w'.open[f] < |w'.closes| && w'.closes[w'.open[f]] == 0)
            && OnlyTouches(w, w', fd)
  {
    var w' := CloseFd(w, fd);
    forall f | f in w'.open ensures w'.open[f] < |w'.closes| && w'.closes[w'.open[f]] == 0 {
      assert w.open[f] != w.open[fd];
    }
  }

  lemma OthersStayPut(l: seq<Entry>, w: World, fd: int)
    requires TableOk(l, w) && Owes(l, w, fd, [])
    ensures var w' := CloseFd(w, fd);
            Fits(l, w') && forall n :: 0 <= n < |w'.conns| ==> IsOpen(w', n) || Finished(l, w', n)
  {
    var w', m := CloseFd(w, fd), w.open[fd];
    assert w.output[m] + Join([]) == w.output[m];
    forall n | 0 <= n < |w'.conns| ensures IsOpen(w', n) || Finished(l, w', n) {
      if n != m && IsOpen(w, n) {
        var f :| f in w.open && w.open[f] == n;
        assert f in w'.open && w'.open[f] == n;
      }
    }
  }

  lemma AcceptKeeps(l: seq<Entry>, l': seq<Entry>, w: World, fd: int, conn: Conn)
    requires TableOk(l, w) && fd !in w.open && l <= l' && |l'| == |l| + 1
    ensures var w' := AcceptOn(w, fd, conn);
            TableOk(l', w') && ThreadOk(l', w', Parsing(fd)) && OnlyTouches(w, w', fd)
  {
    WithOneMore(w.open, fd, |w.conns|);
    assert AcceptOn(w, fd, conn).closes[..|w.closes|] == w.closes;
    OldOnesStayPut(l, l', w, fd, conn);
  }

  lemma OldOnesStayPut(l: seq<Entry>, l': seq<Entry>, w: World, fd: int, conn: Conn)
    requires TableOk(l, w) && fd !in w.open && l <= l' && |l'| == |l| + 1
    ensures var w' := AcceptOn(w, fd, conn);
            Fits(l', w') && forall n :: 0 <= n < |w'.conns| ==> IsOpen(w', n) || Finished(l', w', n)
  {
    var w', last := AcceptOn(w, fd, conn), |w.conns|;
    forall n | 0 <= n < |w'.conns| ensures IsOpen(w', n) || Finished(l', w', n) {
      if n == last {
        assert fd in w'.open && w'.open[fd] == n;
      } else if IsOpen(w, n) {
        var f :| f in w.open && w.open[f] == n;
        assert f in w'.open && w'.open[f] == n;
      } else {
        assert Finished(l, w, n) && l'[n] == l[n];
      }
    }
  }

  // ---- From the outcomes of the two halves to what is owed ----

  lemma ParsedOwes(fs: FileSystem, l: seq<Entry>, w: World, fd: int)
    requires l == Ledger(fs, w.conns) && Shaped(w) && fd in w.open && w.output[w.open[fd]] == ""
    ensures var p := ParseOutcome(fs, w.conns[w.open[fd]], fd);
            && (p.Rejected? ==> Owes(l, w, fd, Writes(fs, Refused(p.cause, p.why))))
            && (p.Ready? ==> Prepared(l, w, p.req))
  {
    var conn := w.conns[w.open[fd]];
    var p := ParseOutcome(fs, conn, fd);
    ParseNamesTheDescriptor(fs, conn, fd);
    if p.Rejected? {
      var writes := Join(Writes(fs, Refused(p.cause, p.why)));
      assert l[w.open[fd]].owed == Some(writes);
      assert "" + writes == writes;
    }
  }

  /** The outcome of parsing depends on the descriptor only in the number that the
      request carries. */
  lemma ParseNamesTheDescriptor(fs: FileSystem, conn: Conn, fd: int)
    ensures var p, p0 := ParseOutcome(fs, conn, fd), ParseOutcome(fs, conn, 0);
            if p.Ready? then p0 == Ready(p.req.(connFd := 0)) else p == p0
  {
  }

  lemma PreparedOwes(fs: FileSystem, l: seq<Entry>, w: World, req: Request)
    requires l == Ledger(fs, w.conns) && Prepared(l, w, req)
    ensures var o := ServeOutcome(fs, req);
            && (o.Replies? ==> Owes(l, w, req.connFd, Writes(fs, o.reply)))
            && (!o.Replies? ==> SomeoneDies(l))
  {
    var n, o := w.open[req.connFd], ServeOutcome(fs, req);
    EntryOfReady(fs, w.conns[n], req);
    assert l[n] == EntryOf(fs, w.conns[n]);
    if o.Replies? {
      var writes := Join(Writes(fs, o.reply));
      assert "" + writes == writes;
    }
  }

  lemma EntryOfReady(fs: FileSystem, conn: Conn, req: Request)
    requires EntryOf(fs, conn).ready == Some(req.(connFd := 0))
    ensures var e, o := EntryOf(fs, conn), ServeOutcome(fs, req);
            && e.owed == (if o.Replies? then Some(Join(Writes(fs, o.reply))) else None)
            && e.dies == !o.Replies?
  {
    assert ServeOutcome(fs, req.(connFd := 0)) == ServeOutcome(fs, req);
    assert PipelineOutcome(fs, conn, 0) == ServeOutcome(fs, req.(connFd := 0));
  }

  // ---- One thread's step ----

  /** The two worlds agree on every open descriptor and what is written there. */
  predicate SameTables(w: World, w': World) {
    w'.open == w.open && w'.output == w.output
  }

  /** The step keeps the connection table in order, does right by its own
      connection and touches no other. */
  ghost predicate DoesRight(l: seq<Entry>, s: State, t: nat, e: Effect)
    requires t < |s.threads|
  {
    && TableOk(l, e.world)
    && e.world.conns == s.world.conns
    && (e.events == [] ==> ThreadOk(l, e.world, e.pc))
    && (SameTables(s.world, e.world)
        || (Token(s.threads[t]).Some? && OnlyTouches(s.world, e.world, Token(s.threads[t]).value)))
    && (e.world.failed && !s.world.failed ==> SomeoneDies(l))
    && (e.events != [] ==>
          && |e.events| == 1
          && (e.events[0].Put? ==> ThreadOk(l, e.world, e.pc) && Prepared(l, e.world, e.events[0].req))
          && (e.events[0].Got? ==> e.pc == GetSignalling(e.events[0].req)))
  }

  lemma ParsingDoesRight(c: Config, l: seq<Entry>, s: State, t: nat)
    requires t < |s.threads| && AcceptorMove(c, s, t).Some? && s.threads[t].Parsing?
    requires l == Ledger(c.fs, s.world.conns) && TableOk(l, s.world) && ThreadOk(l, s.world, s.threads[t])
    ensures DoesRight(l, s, t, AcceptorMove(c, s, t).value)
  {
    var fd := s.threads[t].fd;
    ParsedOwes(c.fs, l, s.world, fd);
    DecidedDoesRight(c, l, s, t, ParseOutcome(c.fs, s.world.conns[s.world.open[fd]], fd));
  }

  lemma DecidedDoesRight(c: Config, l: seq<Entry>, s: State, t: nat, p: Parsed)
    requires t < |s.threads| && s.threads[t].Parsing? && Decided(c, s, s.threads[t].fd, p).Some?
    requires TableOk(l, s.world)
    requires p.Rejected? ==> Owes(l, s.world, s.threads[t].fd, Writes(c.fs, Refused(p.cause, p.why)))
    requires p.Ready? ==> Prepared(l, s.world, p.req)
    ensures DoesRight(l, s, t, Decided(c, s, s.threads[t].fd, p).value)
  {
  }

  lemma ServingDoesRight(c: Config, l: seq<Entry>, s: State, t: nat)
    requires t < |s.threads| && ServeMove(c, s, t).Some? && s.threads[t].Serving?
    requires l == Ledger(c.fs, s.world.conns) && TableOk(l, s.world) && ThreadOk(l, s.world, s.threads[t])
    ensures DoesRight(l, s, t, ServeMove(c, s, t).value)
  {
    var req := s.threads[t].req;
    var o := ServeOutcome(c.fs, req);
    PreparedOwes(c.fs, l, s.world, req);
    if o.Replies? {
      StartsSending(l, s, t, Writes(c.fs, o.reply));
    } else {
      DyingDoesRight(l, s, t);
    }
  }

  lemma StartsSending(l: seq<Entry>, s: State, t: nat, todo: seq<string>)
    requires t < |s.threads| && s.threads[t].Serving? && TableOk(l, s.world)
    requires Owes(l, s.world, s.threads[t].req.connFd, todo)
    ensures DoesRight(l, s, t, Goto(s, Sending(s.threads[t].req.connFd, todo)))
  {
  }

  lemma DyingDoesRight(l: seq<Entry>, s: State, t: nat)
    requires t < |s.threads| && s.threads[t].Serving? && TableOk(l, s.world)
    requires ThreadOk(l, s.world, s.threads[t]) && SomeoneDies(l)
    ensures DoesRight(l, s, t, Access(s, s.threads[t], s.world.(failed := true)))
  {
    FailureKeeps(l, s.world);
  }

  lemma FailureKeeps(l: seq<Entry>, w: World)
    requires TableOk(l, w)
    ensures TableOk(l, w.(failed := true))
  {
    var w' := w.(failed := true);
    forall n | 0 <= n < |w'.conns| ensures IsOpen(w', n) || Finished(l, w', n) {
      if IsOpen(w, n) {
        var f :| f in w.open && w.open[f] == n;
        assert f in w'.open;
      } else {
        assert Finished(l, w, n);
      }
    }
  }

  /** The writing loops of both kinds of thread. */
  lemma WritingDoesRight(l: seq<Entry>, s: State, t: nat, fd: int, todo: seq<string>, e: Effect)
    requires t < |s.threads| && (s.threads[t] == Refusing(fd, todo) || s.threads[t] == Sending(fd, todo))
    requires TableOk(l, s.world) && Owes(l, s.world, fd, todo) && e.events == []
    requires todo != [] ==> e.world == WriteTo(s.world, fd, todo[0])
                            && (e.pc == Refusing(fd, todo[1..]) || e.pc == Sending(fd, todo[1..]))
    requires todo == [] ==> e.world == CloseFd(s.world, fd) && (e.pc.Accepting? || e.pc.GetLocking?)
    ensures DoesRight(l, s, t, e)
  {
    if todo != [] {
      WriteKeeps(l, s.world, fd, todo);
    } else {
      CloseKeeps(l, s.world, fd);
    }
  }

  lemma RefusingDoesRight(c: Config, l: seq<Entry>, s: State, t: nat)
    requires t < |s.threads| && AcceptorMove(c, s, t).Some? && s.threads[t].Refusing?
    requires TableOk(l, s.world) && ThreadOk(l, s.world, s.threads[t])
    ensures DoesRight(l, s, t, AcceptorMove(c, s, t).value)
  {
    WritingDoesRight(l, s, t, s.threads[t].fd, s.threads[t].todo, AcceptorMove(c, s, t).value);
  }

  lemma SendingDoesRight(c: Config, l: seq<Entry>, s: State, t: nat)
    requires t < |s.threads| && ServeMove(c, s, t).Some? && s.threads[t].Sending?
    requires TableOk(l, s.world) && ThreadOk(l, s.world, s.threads[t])
    ensures DoesRight(l, s, t, ServeMove(c, s, t).value)
  {
    WritingDoesRight(l, s, t, s.threads[t].fd, s.threads[t].todo, ServeMove(c, s, t).value);
  }

  lemma PuttingDoesRight(c: Config, l: seq<Entry>, s: State, t: nat)
    requires t < |s.threads| && c.cap >= 1 && PutMove(c, s, t).Some?
    requires TableOk(l, s.world) && ThreadOk(l, s.world, s.threads[t])
    ensures DoesRight(l, s, t, PutMove(c, s, t).value)
  {
    assert PutMove(c, s, t).value.world == s.world;
  }

  lemma GettingDoesRight(c: Config, l: seq<Entry>, s: State, t: nat)
    requires t < |s.threads| && c.cap >= 1 && GetMove(c, s, t).Some?
    requires TableOk(l, s.world) && ThreadOk(l, s.world, s.threads[t])
    ensures DoesRight(l, s, t, GetMove(c, s, t).value)
  {
    assert GetMove(c, s, t).value.world == s.world;
  }

  lemma MoveDoesRight(c: Config, l: seq<Entry>, s: State, t: nat)
    requires t < |s.threads| && c.cap >= 1 && Move(c, s, t).Some?
    requires l == Ledger(c.fs, s.world.conns) && TableOk(l, s.world) && ThreadOk(l, s.world, s.threads[t])
    ensures DoesRight(l, s, t, Move(c, s, t).value)
  {
    var pc := s.threads[t];
    if pc.Parsing? {
      ParsingDoesRight(c, l, s, t);
    } else if pc.Refusing? {
      RefusingDoesRight(c, l, s, t);
    } else if pc.Serving? {
      ServingDoesRight(c, l, s, t);
    } else if pc.Sending? {
      SendingDoesRight(c, l, s, t);
    } else if pc.OfAcceptor() {
      PuttingDoesRight(c, l, s, t);
    } else {
      GettingDoesRight(c, l, s, t);
    }
  }

  // ---- Preservation ----

  lemma AllOthersOk(c: Config, l: seq<Entry>, s: State, t: nat, w': World)
    requires ConnInv(c, s) && OwnInv(c, s) && t < |s.threads| && l == Ledger(c.fs, s.world.conns) && Fits(l, w')
    requires SameTables(s.world, w')
             || (Token(s.threads[t]).Some? && OnlyTouches(s.world, w', Token(s.threads[t]).value))
    ensures forall u :: 0 <= u < |s.threads| && u != t ==> ThreadOk(l, w', s.threads[u])
    ensures forall k :: 0 <= k < |Queue(c, s)| ==> Prepared(l, w', Queue(c, s)[k])
  {
    if SameTables(s.world, w') {
      forall u | 0 <= u < |s.threads| && u != t ensures ThreadOk(l, w', s.threads[u]) {
        SameTablesOk(l, s.world, w', s.threads[u]);
      }
    } else {
      var fd := Token(s.threads[t]).value;
      forall u | 0 <= u < |s.threads| && u != t ensures ThreadOk(l, w', s.threads[u]) {
        ThreadsHoldDifferentDescriptors(c, s, t, u, fd);
        OthersOk(l, l, s.world, w', fd, s.threads[u]);
      }
      forall k | 0 <= k < |Queue(c, s)| ensures Prepared(l, w', Queue(c, s)[k]) {
        ThreadAndQueueHoldDifferentDescriptors(c, s, t, k, fd);
        OthersPrepared(l, l, s.world, w', fd, Queue(c, s)[k]);
      }
    }
  }

  lemma SameTablesOk(l: seq<Entry>, w: World, w': World, pc: Pc)
    requires SameTables(w, w') && Fits(l, w') && ThreadOk(l, w, pc)
    ensures ThreadOk(l, w', pc)
  {
  }

  lemma QueueAfterEvent(p: Policy, cap: nat, l: seq<Entry>, w: World, q: seq<Request>, e: Event)
    requires Apply(p, cap, q, e).Some?
    requires forall k :: 0 <= k < |q| ==> Prepared(l, w, q[k])
    requires e.Put? ==> Prepared(l, w, e.req)
    ensures Prepared(l, w, e.req)
    ensures var q' := Apply(p, cap, q, e).value;
            forall k :: 0 <= k < |q'| ==> Prepared(l, w, q'[k])
  {
    var q' := Apply(p, cap, q, e).value;
    forall k | 0 <= k < |q'| ensures Prepared(l, w, q'[k]) {
      if e.Got? {
        assert q'[k] == q[if k < Chosen(p, q) then k else k + 1];
      }
    }
  }

  lemma ConnInvFrom(c: Config, l: seq<Entry>, s: State, t: nat, e: Effect, q: seq<Request>)
    requires c.cap >= 1 && t < |s.threads| && Replay(c.policy, c.cap, [], s.log + e.events) == Some(q)
    requires l == Ledger(c.fs, e.world.conns) && TableOk(l, e.world) && ThreadOk(l, e.world, e.pc)
    requires forall u :: 0 <= u < |s.threads| && u != t ==> ThreadOk(l, e.world, s.threads[u])
    requires forall k :: 0 <= k < |q| ==> Prepared(l, e.world, q[k])
    requires e.world.failed ==> SomeoneDies(l)
    ensures ConnInv(c, After(s, t, e))
  {
  }

  lemma ConnInvQuiet(c: Config, l: seq<Entry>, s: State, t: nat, e: Effect)
    requires ConnInv(c, s) && OwnInv(c, s) && t < |s.threads| && !s.world.failed
    requires l == Ledger(c.fs, s.world.conns) && DoesRight(l, s, t, e) && e.events == []
    ensures ConnInv(c, After(s, t, e))
  {
    AllOthersOk(c, l, s, t, e.world);
    assert s.log + e.events == s.log;
    ConnInvFrom(c, l, s, t, e, Queue(c, s));
  }

  lemma ConnInvEvent(c: Config, l: seq<Entry>, s: State, t: nat, e: Effect)
    requires ConnInv(c, s) && OwnInv(c, s) && t < |s.threads| && !s.world.failed
    requires l == Ledger(c.fs, s.world.conns) && DoesRight(l, s, t, e) && e.events != []
    requires Replay(c.policy, c.cap, [], s.log + e.events).Some?
    ensures ConnInv(c, After(s, t, e))
  {
    var event := e.events[0];
    AllOthersOk(c, l, s, t, e.world);
    assert e.events == [event];
    ReplayAppend(c.policy, c.cap, [], s.log, event);
    QueueAfterEvent(c.policy, c.cap, l, e.world, Queue(c, s), event);
    assert ThreadOk(l, e.world, e.pc);
    ConnInvFrom(c, l, s, t, e, Apply(c.policy, c.cap, Queue(c, s), event).value);
  }

  lemma ConnInvMove(c: Config, s: State, t: nat)
    requires ConnInv(c, s) && OwnInv(c, s) && t < |s.threads| && Move(c, s, t).Some? && !s.world.failed
    requires Replay(c.policy, c.cap, [], After(s, t, Move(c, s, t).value).log).Some?
    ensures ConnInv(c, After(s, t, Move(c, s, t).value))
  {
    var l, e := Ledger(c.fs, s.world.conns), Move(c, s, t).value;
    MoveDoesRight(c, l, s, t);
    if e.events == [] {
      ConnInvQuiet(c, l, s, t, e);
    } else {
      ConnInvEvent(c, l, s, t, e);
    }
  }

  lemma ConnInvAccept(c: Config, s: State, t: nat, fd: int, conn: Conn)
    requires ConnInv(c, s) && OwnInv(c, s) && t < |s.threads| && s.threads[t].Accepting? && fd !in s.world.open
    requires !s.world.failed
    ensures ConnInv(c, After(s, t, Access(s, Parsing(fd), AcceptOn(s.world, fd, conn))))
  {
    var w' := AcceptOn(s.world, fd, conn);
    var l, l' := Ledger(c.fs, s.world.conns), Ledger(c.fs, w'.conns);
    assert s.log + [] == s.log;
    AcceptKeeps(l, l', s.world, fd, conn);
    forall u | 0 <= u < |s.threads| && u != t ensures ThreadOk(l', w', s.threads[u]) {
      if Token(s.threads[u]) == Some(fd) {
        HeldIsOpen(c, s, u, fd);
      }
      OthersOk(l, l', s.world, w', fd, s.threads[u]);
    }
    forall k | 0 <= k < |Queue(c, s)| ensures Prepared(l', w', Queue(c, s)[k]) {
      OthersPrepared(l, l', s.world, w', fd, Queue(c, s)[k]);
    }
  }

  lemma ConnInvWake(c: Config, s: State, t: nat, pc: Pc)
    requires ConnInv(c, s) && t < |s.threads| && ThreadOk(Ledger(c.fs, s.world.conns), s.world, pc)
    ensures ConnInv(c, s.(threads := s.threads[t := pc]))
  {
    var l, s' := Ledger(c.fs, s.world.conns), s.(threads := s.threads[t := pc]);
    assert Ledger(c.fs, s'.world.conns) == l;
    forall u | 0 <= u < |s'.threads| ensures ThreadOk(l, s'.world, s'.threads[u]) {
      assert u != t ==> s'.threads[u] == s.threads[u];
    }
    assert Queue(c, s') == Queue(c, s);
  }

  lemma ConnInvSignal(c: Config, s: State, t: nat, wakee: nat)
    requires ConnInv(c, s) && t < |s.threads| && wakee < |s.threads| && Hears(s.threads[t], s.threads[wakee])
    ensures ConnInv(c, s.(threads := s.threads[t := Signalled(s.threads[t])][wakee := Woken(s.threads[wakee])]))
  {
    var l, mid := Ledger(c.fs, s.world.conns), s.(threads := s.threads[t := Signalled(s.threads[t])]);
    SignalKeepsThreads(l, s.world, s.threads[t], s.threads[wakee]);
    ConnInvWake(c, s, t, Signalled(s.threads[t]));
    ConnInvWake(c, mid, wakee, Woken(s.threads[wakee]));
  }

  lemma SignalKeepsThreads(l: seq<Entry>, w: World, pc: Pc, sleeper: Pc)
    requires Hears(pc, sleeper) && ThreadOk(l, w, pc) && ThreadOk(l, w, sleeper)
    ensures ThreadOk(l, w, Signalled(pc)) && ThreadOk(l, w, Woken(sleeper))
  {
  }

  lemma ConnInvAwakened(c: Config, s: State, t: nat, pc: Pc)
    requires ConnInv(c, s) && t < |s.threads| && ThreadOk(Ledger(c.fs, s.world.conns), s.world, pc)
    ensures ConnInv(c, After(s, t, Goto(s, pc)))
  {
    ConnInvWake(c, s, t, pc);
    assert After(s, t, Goto(s, pc)) == s.(threads := s.threads[t := pc]);
  }

  lemma ConnInvSilence(c: Config, s: State, t: nat)
    requires ConnInv(c, s) && t < |s.threads| && (s.threads[t].PutSignalling? || s.threads[t].GetSignalling?)
    ensures ConnInv(c, After(s, t, Goto(s, Signalled(s.threads[t]))))
  {
    ConnInvAwakened(c, s, t, Signalled(s.threads[t]));
  }

  lemma ConnInvSpurious(c: Config, s: State, t: nat)
    requires ConnInv(c, s) && t < |s.threads| && (s.threads[t].PutAsleep? || s.threads[t].GetAsleep?)
    ensures ConnInv(c, After(s, t, Goto(s, Woken(s.threads[t]))))
  {
    ConnInvAwakened(c, s, t, Woken(s.threads[t]));
  }

  lemma ConnInvSync(c: Config, s: State, step: Step)
    requires ConnInv(c, s) && OwnInv(c, s) && step.t < |s.threads| && !step.Act? && !s.world.failed
    requires Sync(s, step).Some?
    ensures ConnInv(c, Sync(s, step).value)
  {
    var t := step.t;
    match step
    case Accept(_, fd, conn) => ConnInvAccept(c, s, t, fd, conn);
    case Signal(_, wakee) => ConnInvSignal(c, s, t, wakee);
    case SignalNobody(_) => ConnInvSilence(c, s, t);
    case Spurious(_) => ConnInvSpurious(c, s, t);
  }

  lemma ConnInvStep(c: Config, s: State, step: Step)
    requires ConnInv(c, s) && OwnInv(c, s) && Take(c, s, step).Some?
    requires Replay(c.policy, c.cap, [], Take(c, s, step).value.log).Some?
    ensures ConnInv(c, Take(c, s, step).value)
  {
    if step.Act? {
      ConnInvMove(c, s, step.t);
    } else {
      ConnInvSync(c, s, step);
    }
  }
}
