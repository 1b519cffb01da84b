/** The server and its load client together. */
module EndToEnd {
  import opened HttpText
  import opened RequestHandling
  import opened Responses
  import opened ServerModel
  import opened ServerTheorems
  import opened ResponseFraming
  import opened Requests
  import opened Descriptors
  import opened RequestFraming
  import opened Draining

  /** However the threads interleave, the load client reads off every finished
      connection the status that the sequential server would have decided on. */
  lemma ClientsSeeTheSequentialStatus(c: Config, s: State, n: nat)
    requires c.cap >= 1 && Reachable(c, s) && n < |s.world.conns|
    requires !IsOpen(s.world, n) && FitsArrays(c.fs, s.world.conns[n])
    ensures HandleOutcome(c.fs, s.world.conns[n]).Replies?
    ensures n < |s.world.output|
    ensures ClientStatus(s.world.output[n]) == StatusDue(HandleOutcome(c.fs, s.world.conns[n]).reply)
  {
    ConcurrentRefinesSequential(c, s, n);
    ClientSeesTheStatus(c.fs, s.world.conns[n]);
  }

  /** Every request that ends and fits the arrays has runs that finish it. */
  lemma SomeRunFinishes(c: Config, conn: Conn) returns (s: State)
    requires Sane(c) && FitsArrays(c.fs, conn) && HandleOutcome(c.fs, conn).Replies?
    ensures Reachable(c, s) && s.world.conns == [conn] && !IsOpen(s.world, 0)
  {
    var s1 := OneAccepted(c, conn);
    DoesNotKill(c.fs, conn);
    s := SomeRunDoesItsDuty(c, s1);
    FirstIsFinished(c, s, conn);
  }

  lemma FirstIsFinished(c: Config, s: State, conn: Conn)
    requires c.cap >= 1 && Reachable(c, s) && Shaped(s.world) && s.world.conns == [conn]
    requires ServedAsDue(c.fs, s.world, 0) && FitsArrays(c.fs, conn) && HandleOutcome(c.fs, conn).Replies?
    ensures !IsOpen(s.world, 0)
  {
    DueIsServed(c.fs, s.world, 0);
    ServedIsNotOpen(c, s, 0);
  }

  lemma SomeRunDoesItsDuty(c: Config, s1: State) returns (s: State)
    requires Sane(c) && Reachable(c, s1)
    requires forall n :: 0 <= n < |s1.world.conns| ==> !Kills(c.fs, s1.world.conns[n])
    ensures Reachable(c, s) && s.world.conns == s1.world.conns && Shaped(s.world)
    ensures forall n :: 0 <= n < |s.world.conns| ==> ServedAsDue(c.fs, s.world, n)
  {
    var steps;
    steps, s := EverybodyCanBeServed(c, s1);
  }

  lemma DueIsServed(fs: FileSystem, w: World, n: nat)
    requires Shaped(w) && n < |w.conns| && ServedAsDue(fs, w, n)
    requires FitsArrays(fs, w.conns[n]) && HandleOutcome(fs, w.conns[n]).Replies?
    ensures Served(fs, w, n)
  {
  }

  lemma ServedIsNotOpen(c: Config, s: State, n: nat)
    requires c.cap >= 1 && Reachable(c, s) && Shaped(s.world) && n < |s.world.conns| && Served(c.fs, s.world, n)
    ensures !IsOpen(s.world, n)
  {
    ClosedOnceAndNeverUsedAgain(c, s, n);
  }

  lemma DoesNotKill(fs: FileSystem, conn: Conn)
    requires FitsArrays(fs, conn) && HandleOutcome(fs, conn).Replies?
    ensures !Kills(fs, conn)
  {
    DiesIff(fs, conn, 0);
  }

  /** The state in which the first connection has just been accepted. */
  lemma OneAccepted(c: Config, conn: Conn) returns (s: State)
    requires Sane(c)
    ensures Reachable(c, s) && s.world.conns == [conn] && 0 in s.world.open && s.world.open[0] == 0
    ensures 0 < |s.threads| && s.threads[0] == Parsing(0)
  {
    var slot := Request(0, "", "", true, 0);
    var threads := seq(c.acceptors + c.workers, i => if i < c.acceptors then Accepting else GetLocking);
    var s0 := State(Ring(seq(c.cap, _ => slot), 0, 0, 0), None, threads, BOOT, []);
    assert Run(c, s0, []) == Some(s0);
    assert Reachable(c, s0);
    s := Take(c, s0, Accept(0, 0, conn)).value;
    ReachableNext(c, s0, Accept(0, 0, conn));
    assert BOOT.conns + [conn] == [conn];
  }

  /** One client that closes its side behind the request line is enough to keep an
      acceptor for ever. */
  lemma SomeAcceptorIsStuck(c: Config) returns (s: State)
    requires Sane(c)
    ensures Reachable(c, s) && StuckIn(c, s, 0)
  {
    var uri := "/e";
    var conn := RawConn(RequestLine(uri), PlainRequest(uri).junk);
    s := OneAccepted(c, conn);
    ClosedBehindTheRequestLine(c.fs, conn, uri);
    HangsIff(c.fs, conn, 0);
  }

  /** The owner may use the file in the way that the request wants to. */
  predicate Usable(f: File, isStatic: bool) {
    f.regular && if isStatic then f.ownerReads else f.ownerRuns
  }

  /** What the status says to the client of a finished connection: 501 exactly when
      the method is not GET, 404 exactly when there is no such file, 403 exactly
      when there is one that may not be used, and otherwise 200. */
  lemma StatusTellsWhatHappened(c: Config, s: State, n: nat)
    requires c.cap >= 1 && Reachable(c, s) && n < |s.world.conns|
    requires !IsOpen(s.world, n) && FitsArrays(c.fs, s.world.conns[n])
    ensures n < |s.world.output|
    ensures var status, get := ClientStatus(s.world.output[n]), EqualIgnoringCase(Method(s.world.conns[n]), "GET");
            var t := Resolve(Uri(s.world.conns[n]));
            && (status == 501 <==> !get)
            && (status == 404 <==> get && t.filename !in c.fs)
            && (status == 403 <==> get && t.filename in c.fs && !Usable(c.fs[t.filename], t.isStatic))
            && (status == 200 <==> get && t.filename in c.fs && Usable(c.fs[t.filename], t.isStatic))
  {
    ClientsSeeTheSequentialStatus(c, s, n);
    StatusOfOutcome(c.fs, s.world.conns[n]);
  }

  lemma StatusOfOutcome(fs: FileSystem, conn: Conn)
    requires HandleOutcome(fs, conn).Replies?
    ensures var status, get := StatusDue(HandleOutcome(fs, conn).reply), EqualIgnoringCase(Method(conn), "GET");
            var t := Resolve(Uri(conn));
            && (status == 501 <==> !get)
            && (status == 404 <==> get && t.filename !in fs)
            && (status == 403 <==> get && t.filename in fs && !Usable(fs[t.filename], t.isStatic))
            && (status == 200 <==> get && t.filename in fs && Usable(fs[t.filename], t.isStatic))
  {
    var method_, uri, drained := Method(conn), Uri(conn), AfterHeaders(conn).Some?;
    assert HandleOutcome(fs, conn) == Handle(fs, method_, uri, drained);
  }
}
