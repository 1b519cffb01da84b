/** Runs of the bounded request queue, independent of any memory layout.
    A run is the log of completed puts and gets in the order in which they took
    the mutex. */
module BoundedQueue {
  import opened Requests

  datatype Event = Put(req: Request) | Got(req: Request)

  function Apply(p: Policy, cap: nat, q: seq<Request>, e: Event): Option<seq<Request>> {
    match e
    case Put(r) => if |q| < cap then Some(q + [r]) else None
    case Got(r) =>
      if q != [] && r == q[Chosen(p, q)] then Some(Without(q, Chosen(p, q))) else None
  }

  /** The queue after the log, or None when the log is not a run of the queue. */
  function Replay(p: Policy, cap: nat, q: seq<Request>, log: seq<Event>): Option<seq<Request>>
    decreases |log|
  {
    if log == [] then Some(q)
    else
      match Apply(p, cap, q, log[0])
      case None => None
      case Some(q') => Replay(p, cap, q', log[1..])
  }

  function In(e: Event): seq<Request> {
    if e.Put? then [e.req] else []
  }

  function Out(e: Event): seq<Request> {
    if e.Got? then [e.req] else []
  }

  /** The requests put, in order. */
  function Ins(log: seq<Event>): seq<Request> {
    if log == [] then []
    else In(log[0]) + Ins(log[1..])
  }

  /** The requests got, in order. */
  function Outs(log: seq<Event>): seq<Request> {
    if log == [] then []
    else Out(log[0]) + Outs(log[1..])
  }

  /** The requests of one size, in order. */
  function OfSize(q: seq<Request>, size: int): seq<Request> {
    if q == [] then []
    else (if q[0].filesize == size then [q[0]] else []) + OfSize(q[1..], size)
  }

  lemma {:induction false} ReplayConcat(p: Policy, cap: nat, q: seq<Request>, a: seq<Event>, b: seq<Event>)
    ensures Replay(p, cap, q, a + b) ==
            match Replay(p, cap, q, a) { case None => None case Some(q') => Replay(p, cap, q', b) }
    decreases |a|
  {
    if a == [] {
      assert a + b == b;
    } else {
      assert (a + b)[1..] == a[1..] + b;
      match Apply(p, cap, q, a[0])
      case None =>
      case Some(q') => ReplayConcat(p, cap, q', a[1..], b);
    }
  }

  lemma ReplayAppend(p: Policy, cap: nat, q: seq<Request>, log: seq<Event>, e: Event)
    requires Replay(p, cap, q, log).Some?
    ensures Replay(p, cap, q, log + [e]) == Apply(p, cap, Replay(p, cap, q, log).value, e)
  {
    ReplayConcat(p, cap, q, log, [e]);
    var q' := Replay(p, cap, q, log).value;
    match Apply(p, cap, q', e)
    case None =>
    case Some(r) => assert Replay(p, cap, r, [e][1..]) == Some(r);
  }

  /** A run never holds more than cap requests, and loses or invents none. */
  lemma {:induction false} Conservation(p: Policy, cap: nat, q: seq<Request>, log: seq<Event>)
    requires |q| <= cap && Replay(p, cap, q, log).Some?
    ensures |Replay(p, cap, q, log).value| <= cap
    ensures multiset(q) + multiset(Ins(log)) == multiset(Outs(log)) + multiset(Replay(p, cap, q, log).value)
    decreases |log|
  {
    if log != [] {
      var q' := Apply(p, cap, q, log[0]).value;
      ConservationStep(p, cap, q, log[0]);
      Conservation(p, cap, q', log[1..]);
      var ins, outs := Ins(log[1..]), Outs(log[1..]);
      assert multiset(In(log[0]) + ins) == multiset(In(log[0])) + multiset(ins);
      assert multiset(Out(log[0]) + outs) == multiset(Out(log[0])) + multiset(outs);
      var left := Replay(p, cap, q', log[1..]).value;
      assert Replay(p, cap, q, log) == Some(left);
      var bag, bag', put, got := multiset(q), multiset(q'), multiset(In(log[0])), multiset(Out(log[0]));
      assert bag + (put + multiset(ins)) == (bag + put) + multiset(ins);
      assert (got + bag') + multiset(ins) == got + (bag' + multiset(ins));
      assert got + (multiset(outs) + multiset(left)) == (got + multiset(outs)) + multiset(left);
    }
  }

  lemma ConservationStep(p: Policy, cap: nat, q: seq<Request>, e: Event)
    requires Apply(p, cap, q, e).Some?
    ensures multiset(q) + multiset(In(e)) == multiset(Out(e)) + multiset(Apply(p, cap, q, e).value)
  {
    if e.Got? {
      SplitAt(q, Chosen(p, q));
    }
  }

  lemma SplitAt(q: seq<Request>, m: nat)
    requires m < |q|
    ensures multiset(q) == multiset{q[m]} + multiset(Without(q, m))
  {
    assert q == q[..m] + [q[m]] + q[m + 1..];
  }

  lemma Regroup<T>(q: seq<T>, i: seq<T>, ins: seq<T>, o: seq<T>, q': seq<T>, outs: seq<T>, left: seq<T>)
    requires q + i == o + q' && q' + ins == outs + left
    ensures q + (i + ins) == (o + outs) + left
  {
    assert q + (i + ins) == (q + i) + ins;
    assert (o + q') + ins == o + (q' + ins);
    assert o + (outs + left) == (o + outs) + left;
  }

  /** FIFO returns requests exactly in the order in which they came. */
  lemma {:induction false} FifoOrder(cap: nat, q: seq<Request>, log: seq<Event>)
    requires Replay(Fifo, cap, q, log).Some?
    ensures q + Ins(log) == Outs(log) + Replay(Fifo, cap, q, log).value
    decreases |log|
  {
    if log != [] {
      var q' := Apply(Fifo, cap, q, log[0]).value;
      FifoOrder(cap, q', log[1..]);
      assert q + In(log[0]) == Out(log[0]) + q';
      Regroup(q, In(log[0]), Ins(log[1..]), Out(log[0]), q', Outs(log[1..]), Replay(Fifo, cap, q', log[1..]).value);
    }
  }

  /** A request with k others ahead of it is returned by exactly the (k+1)-th
      following get of a FIFO run, and not before. */
  lemma FifoPosition(cap: nat, q: seq<Request>, log: seq<Event>, k: nat)
    requires k < |q| && Replay(Fifo, cap, q, log).Some?
    ensures k < |Outs(log)| ==> Outs(log)[k] == q[k]
    ensures k >= |Outs(log)| ==>
              var left := Replay(Fifo, cap, q, log).value;
              k - |Outs(log)| < |left| && left[k - |Outs(log)|] == q[k]
  {
    FifoOrder(cap, q, log);
    var left := Replay(Fifo, cap, q, log).value;
    assert (q + Ins(log))[k] == q[k];
    assert k < |Outs(log)| ==> (Outs(log) + left)[k] == Outs(log)[k];
    assert k >= |Outs(log)| ==> (Outs(log) + left)[k] == left[k - |Outs(log)|];
  }

  lemma {:induction false} OfSizeConcat(a: seq<Request>, b: seq<Request>, size: int)
    ensures OfSize(a + b, size) == OfSize(a, size) + OfSize(b, size)
  {
    if a == [] {
      assert a + b == b;
    } else {
      var mine := if a[0].filesize == size then [a[0]] else [];
      assert (a + b)[1..] == a[1..] + b;
      OfSizeConcat(a[1..], b, size);
      assert mine + (OfSize(a[1..], size) + OfSize(b, size)) == (mine + OfSize(a[1..], size)) + OfSize(b, size);
    }
  }

  lemma {:induction false} NoneOfSize(a: seq<Request>, size: int)
    requires forall k :: 0 <= k < |a| ==> a[k].filesize != size
    ensures OfSize(a, size) == []
  {
    if a != [] {
      NoneOfSize(a[1..], size);
    }
  }

  /** Taking the chosen entry takes the oldest of its size and leaves every
      other size alone. */
  lemma ChosenIsOldestOfItsSize(p: Policy, q: seq<Request>, size: int)
    requires q != []
    ensures var m := Chosen(p, q);
            OfSize(q, size) == (if q[m].filesize == size then [q[m]] else []) + OfSize(Without(q, m), size)
  {
    var m := Chosen(p, q);
    OfSizeSplit(q, m, size);
    OfSizeConcat(q[..m], q[m + 1..], size);
    NoneBeforeChosen(p, q);
    Pulled(OfSize(q[..m], size), if q[m].filesize == size then [q[m]] else [], OfSize(q[m + 1..], size));
  }

  lemma NoneBeforeChosen(p: Policy, q: seq<Request>)
    requires q != []
    ensures OfSize(q[..Chosen(p, q)], q[Chosen(p, q)].filesize) == []
  {
    var m := Chosen(p, q);
    assert forall k :: 0 <= k < m ==> q[..m][k] == q[k];
    NoneOfSize(q[..m], q[m].filesize);
  }

  lemma Pulled<T>(before: seq<T>, mine: seq<T>, after: seq<T>)
    requires before == [] || mine == []
    ensures before + mine + after == mine + (before + after)
  {
  }

  lemma OfSizeSplit(q: seq<Request>, m: nat, size: int)
    requires m < |q|
    ensures OfSize(q, size) ==
            OfSize(q[..m], size) + (if q[m].filesize == size then [q[m]] else []) + OfSize(q[m + 1..], size)
  {
    assert q == q[..m] + [q[m]] + q[m + 1..];
    OfSizeConcat(q[..m] + [q[m]], q[m + 1..], size);
    OfSizeConcat(q[..m], [q[m]], size);
    assert OfSize([q[m]], size) == if q[m].filesize == size then [q[m]] else [];
  }

  /** Whole-run stability: for each size, the requests got are a prefix of the
      requests put, and the ones still waiting are the rest, in order. */
  lemma {:induction false} PerSizeOrder(p: Policy, cap: nat, q: seq<Request>, log: seq<Event>, size: int)
    requires Replay(p, cap, q, log).Some?
    ensures OfSize(q, size) + OfSize(Ins(log), size) ==
            OfSize(Outs(log), size) + OfSize(Replay(p, cap, q, log).value, size)
    decreases |log|
  {
    if log != [] {
      var q' := Apply(p, cap, q, log[0]).value;
      PerSizeStep(p, cap, q, log[0], size);
      PerSizeOrder(p, cap, q', log[1..], size);
      OfSizeConcat(In(log[0]), Ins(log[1..]), size);
      OfSizeConcat(Out(log[0]), Outs(log[1..]), size);
      Regroup(OfSize(q, size), OfSize(In(log[0]), size), OfSize(Ins(log[1..]), size), OfSize(Out(log[0]), size),
              OfSize(q', size), OfSize(Outs(log[1..]), size), OfSize(Replay(p, cap, q', log[1..]).value, size));
    }
  }

  lemma PerSizeStep(p: Policy, cap: nat, q: seq<Request>, e: Event, size: int)
    requires Apply(p, cap, q, e).Some?
    ensures OfSize(q, size) + OfSize(In(e), size) == OfSize(Out(e), size) + OfSize(Apply(p, cap, q, e).value, size)
  {
    match e
    case Put(r) =>
      OfSizeConcat(q, [r], size);
    case Got(r) =>
      ChosenIsOldestOfItsSize(p, q, size);
      assert OfSize([r], size) == if r.filesize == size then [r] else [];
  }

  /** With one file size, an SFF run is a FIFO run, step for step. */
  lemma {:induction false} EqualSizesActAsFifo(cap: nat, q: seq<Request>, log: seq<Event>, size: int)
    requires forall k :: 0 <= k < |q| ==> q[k].filesize == size
    requires forall k :: 0 <= k < |log| && log[k].Put? ==> log[k].req.filesize == size
    ensures Replay(Sff, cap, q, log) == Replay(Fifo, cap, q, log)
    decreases |log|
  {
    if log != [] {
      if q != [] {
        LeftmostMinUnique(q, 0);
      }
      assert Apply(Sff, cap, q, log[0]) == Apply(Fifo, cap, q, log[0]);
      match Apply(Sff, cap, q, log[0])
      case None =>
      case Some(q') => EqualSizesActAsFifo(cap, q', log[1..], size);
    }
  }

  // ---- How long a request waits under SFF ----

  /** Request a, at position i, is served before request b, at position j. */
  predicate Beats(a: Request, i: nat, b: Request, j: nat) {
    a.filesize < b.filesize || (a.filesize == b.filesize && i < j)
  }

  /** How many of the first n entries are served before entry k. */
  function BeatersUpTo(q: seq<Request>, k: nat, n: nat): (c: nat)
    requires k < |q| && n <= |q|
    ensures c <= n
  {
    if n == 0 then 0
    else BeatersUpTo(q, k, n - 1) + (if Beats(q[n - 1], n - 1, q[k], k) then 1 else 0)
  }

  /** How many waiting requests are served before entry k. */
  function Beaters(q: seq<Request>, k: nat): nat
    requires k < |q|
  {
    BeatersUpTo(q, k, |q|)
  }

  lemma {:induction false} BeatersOfPrefix(q: seq<Request>, q': seq<Request>, k: nat, n: nat)
    requires k < |q| && k < |q'| && n <= |q| && n <= |q'|
    requires q[k] == q'[k] && q[..n] == q'[..n]
    ensures BeatersUpTo(q, k, n) == BeatersUpTo(q', k, n)
  {
    if n > 0 {
      assert q[n - 1] == q[..n][n - 1] == q'[n - 1];
      assert q[..n - 1] == q[..n][..n - 1] == q'[..n - 1];
      BeatersOfPrefix(q, q', k, n - 1);
    }
  }

  lemma {:induction false} BeatersWithout(q: seq<Request>, m: nat, k: nat, n: nat)
    requires m < |q| && k < |q| && m != k && n <= |q|
    ensures var r := Without(q, m);
            var k' := if m < k then k - 1 else k;
            BeatersUpTo(q, k, n) ==
            BeatersUpTo(r, k', if m < n then n - 1 else n)
            + (if m < n && Beats(q[m], m, q[k], k) then 1 else 0)
  {
    if n > 0 {
      BeatersWithout(q, m, k, n - 1);
    }
  }

  lemma {:induction false} NoBeaters(q: seq<Request>, k: nat, n: nat)
    requires k < |q| && n <= |q|
    requires BeatersUpTo(q, k, n) == 0
    ensures forall i :: 0 <= i < n ==> !Beats(q[i], i, q[k], k)
  {
    if n > 0 {
      NoBeaters(q, k, n - 1);
    }
  }

  /** SFF takes entry k exactly when nothing waiting beats it. */
  lemma ChosenWhenNoBeaters(q: seq<Request>, k: nat)
    requires k < |q|
    ensures Chosen(Sff, q) == k <==> Beaters(q, k) == 0
  {
    if Beaters(q, k) == 0 {
      NoBeaters(q, k, |q|);
      forall j | 0 <= j < k ensures q[k].filesize < q[j].filesize {
        assert !Beats(q[j], j, q[k], k);
      }
      forall j | k <= j < |q| ensures q[k].filesize <= q[j].filesize {
        assert !Beats(q[j], j, q[k], k);
      }
      LeftmostMinUnique(q, k);
    } else if Chosen(Sff, q) == k {
      SomeBeater(q, k, |q|);
    }
  }

  lemma {:induction false} SomeBeater(q: seq<Request>, k: nat, n: nat)
    requires k < |q| && n <= |q|
    requires BeatersUpTo(q, k, n) > 0
    ensures exists i :: 0 <= i < n && Beats(q[i], i, q[k], k)
  {
    if !Beats(q[n - 1], n - 1, q[k], k) {
      SomeBeater(q, k, n - 1);
    }
  }

  /** Where entry k of q stands after the log: None once it has been taken. */
  function Track(p: Policy, cap: nat, q: seq<Request>, log: seq<Event>, k: nat): Option<nat>
    requires k < |q| && Replay(p, cap, q, log).Some?
    decreases |log|
  {
    if log == [] then Some(k)
    else
      var q' := Apply(p, cap, q, log[0]).value;
      match log[0]
      case Put(_) => Track(p, cap, q', log[1..], k)
      case Got(_) =>
        var m := Chosen(p, q);
        if m == k then None
        else Track(p, cap, q', log[1..], if m < k then k - 1 else k)
  }

  function SmallerPuts(log: seq<Event>, size: int): nat {
    if log == [] then 0
    else (if log[0].Put? && log[0].req.filesize < size then 1 else 0) + SmallerPuts(log[1..], size)
  }

  /** The wait law of SFF.  While a request waits, every get takes one of the
      requests that beat it and only strictly smaller arrivals join them, so the
      number of gets so far is fixed by the arrivals. */
  lemma {:induction false} SffWaitLaw(cap: nat, q: seq<Request>, log: seq<Event>, k: nat)
    requires k < |q| && Replay(Sff, cap, q, log).Some?
    requires Track(Sff, cap, q, log, k).Some?
    ensures var left := Replay(Sff, cap, q, log).value;
            var j := Track(Sff, cap, q, log, k).value;
            && j < |left| && left[j] == q[k]
            && Beaters(left, j) + |Outs(log)| == Beaters(q, k) + SmallerPuts(log, q[k].filesize)
    decreases |log|
  {
    if log != [] {
      var q' := Apply(Sff, cap, q, log[0]).value;
      var k' := if log[0].Got? && Chosen(Sff, q) < k then k - 1 else k;
      SffWaitStep(cap, q, log[0], k);
      SffWaitLaw(cap, q', log[1..], k');
    }
  }

  /** One event of the wait law. */
  lemma SffWaitStep(cap: nat, q: seq<Request>, e: Event, k: nat)
    requires k < |q| && Apply(Sff, cap, q, e).Some?
    requires e.Got? ==> Chosen(Sff, q) != k
    ensures var q' := Apply(Sff, cap, q, e).value;
            var k' := if e.Got? && Chosen(Sff, q) < k then k - 1 else k;
            && k' < |q'| && q'[k'] == q[k]
            && (e.Got? ==> Beats(e.req, Chosen(Sff, q), q[k], k))
            && Beaters(q', k') + (if e.Got? then 1 else 0) ==
               Beaters(q, k) + (if e.Put? && e.req.filesize < q[k].filesize then 1 else 0)
  {
    match e
    case Put(r) =>
      var q' := q + [r];
      assert q'[..|q|] == q[..|q|];
      BeatersOfPrefix(q, q', k, |q|);
    case Got(r) =>
      BeatersWithout(q, Chosen(Sff, q), k, |q|);
  }

  /** Hence no get goes to a request that does not beat it, and the wait is
      bounded by the beaters at arrival plus the strictly smaller arrivals. */
  lemma SffWaitBound(cap: nat, q: seq<Request>, log: seq<Event>, k: nat)
    requires k < |q| && Replay(Sff, cap, q, log).Some?
    ensures |Outs(log)| > Beaters(q, k) + SmallerPuts(log, q[k].filesize)
            ==> Track(Sff, cap, q, log, k).None?
  {
    if Track(Sff, cap, q, log, k).Some? {
      SffWaitLaw(cap, q, log, k);
    }
  }

  /** The n-th event is a get, and as many gets have gone before it as the request
      had beaters at first and strictly smaller ones have come since. */
  ghost predicate OnTurn(q: seq<Request>, log: seq<Event>, k: nat, n: nat)
    requires k < |q|
  {
    && n < |log| && log[n].Got?
    && |Outs(log[..n])| == Beaters(q, k) + SmallerPuts(log[..n], q[k].filesize)
  }

  ghost predicate FirstTurn(q: seq<Request>, log: seq<Event>, k: nat, n: nat)
    requires k < |q|
  {
    OnTurn(q, log, k, n) && forall m: nat :: m < n ==> !OnTurn(q, log, k, m)
  }

  lemma OnTurnLater(q: seq<Request>, q': seq<Request>, log: seq<Event>, k: nat, k': nat, n: nat)
    requires k < |q| && k' < |q'| && q'[k'] == q[k] && log != []
    requires Beaters(q', k') + (if log[0].Got? then 1 else 0) ==
             Beaters(q, k) + (if log[0].Put? && log[0].req.filesize < q[k].filesize then 1 else 0)
    ensures OnTurn(q, log, k, n + 1) <==> OnTurn(q', log[1..], k', n)
  {
    if n < |log| - 1 {
      assert log[..n + 1][1..] == log[1..][..n];
    }
  }

  /** The n-th event is the get that takes the request: before it the request
      waits, after it it does not. */
  ghost predicate TakenBy(cap: nat, q: seq<Request>, log: seq<Event>, k: nat, n: nat)
    requires k < |q| && n < |log|
  {
    && log[n] == Got(q[k])
    && Replay(Sff, cap, q, log[..n + 1]).Some? && Track(Sff, cap, q, log[..n + 1], k).None?
    && Replay(Sff, cap, q, log[..n]).Some? && Track(Sff, cap, q, log[..n], k).Some?
  }

  lemma TakenAtOnce(cap: nat, q: seq<Request>, log: seq<Event>, k: nat)
    requires k < |q| && log != [] && Apply(Sff, cap, q, log[0]).Some? && log[0].Got? && Chosen(Sff, q) == k
    ensures TakenBy(cap, q, log, k, 0)
  {
    assert log[..0 + 1][1..] == [] && log[..0] == [];
  }

  lemma TakenLater(cap: nat, q: seq<Request>, log: seq<Event>, k: nat, n: nat)
    requires k < |q| && 0 < n < |log| && Apply(Sff, cap, q, log[0]).Some?
    requires log[0].Got? ==> Chosen(Sff, q) != k
    requires var q' := Apply(Sff, cap, q, log[0]).value;
             var k' := if log[0].Got? && Chosen(Sff, q) < k then k - 1 else k;
             k' < |q'| && q'[k'] == q[k] && TakenBy(cap, q', log[1..], k', n - 1)
    ensures TakenBy(cap, q, log, k, n)
  {
    assert log[..n + 1][1..] == log[1..][..n - 1 + 1];
    assert log[..n][1..] == log[1..][..n - 1];
  }

  /** The turns after an event that leaves the request waiting. */
  lemma TurnsShift(q: seq<Request>, q': seq<Request>, log: seq<Event>, k: nat, k': nat)
    requires k < |q| && k' < |q'| && q'[k'] == q[k] && log != [] && !OnTurn(q, log, k, 0)
    requires Beaters(q', k') + (if log[0].Got? then 1 else 0) ==
             Beaters(q, k) + (if log[0].Put? && log[0].req.filesize < q[k].filesize then 1 else 0)
    ensures (exists n: nat :: OnTurn(q, log, k, n)) <==> (exists n: nat :: OnTurn(q', log[1..], k', n))
    ensures forall n: nat :: FirstTurn(q, log, k, n) ==> n > 0 && FirstTurn(q', log[1..], k', n - 1)
  {
    forall n: nat ensures OnTurn(q, log, k, n + 1) <==> OnTurn(q', log[1..], k', n) {
      OnTurnLater(q, q', log, k, k', n);
    }
    if n: nat :| OnTurn(q, log, k, n) {
      assert n > 0 && OnTurn(q', log[1..], k', n - 1);
    }
    forall n: nat | FirstTurn(q, log, k, n) ensures n > 0 && FirstTurn(q', log[1..], k', n - 1) {
      assert OnTurn(q', log[1..], k', n - 1);
      forall m: nat | m < n - 1 ensures !OnTurn(q', log[1..], k', m) {
        assert !OnTurn(q, log, k, m + 1);
      }
    }
  }

  /** Exactly when SFF returns a waiting request: at the first get whose turn it is,
      and never if there is none. */
  lemma {:induction false} SffTakenIff(cap: nat, q: seq<Request>, log: seq<Event>, k: nat)
    requires k < |q| && Replay(Sff, cap, q, log).Some?
    ensures Track(Sff, cap, q, log, k).None? <==> exists n: nat :: OnTurn(q, log, k, n)
    ensures forall n: nat :: FirstTurn(q, log, k, n) ==> TakenBy(cap, q, log, k, n)
    decreases |log|
  {
    if log != [] {
      ChosenWhenNoBeaters(q, k);
      if log[0].Got? && Chosen(Sff, q) == k {
        assert log[..0] == [];
        assert OnTurn(q, log, k, 0);
        TakenAtOnce(cap, q, log, k);
      } else {
        var q' := Apply(Sff, cap, q, log[0]).value;
        var k' := if log[0].Got? && Chosen(Sff, q) < k then k - 1 else k;
        SffWaitStep(cap, q, log[0], k);
        SffTakenIff(cap, q', log[1..], k');
        assert log[..0] == [] && !OnTurn(q, log, k, 0);
        TurnsShift(q, q', log, k, k');
        forall n: nat | FirstTurn(q, log, k, n) ensures TakenBy(cap, q, log, k, n) {
          TakenLater(cap, q, log, k, n);
        }
      }
    }
  }

  /** n rounds in which a small request arrives and is taken at once. */
  function Rounds(small: Request, n: nat): seq<Event> {
    if n == 0 then [] else [Put(small), Got(small)] + Rounds(small, n - 1)
  }

  /** SFF can starve a request: with room for two, some run passes over one
      waiting request any number of times. */
  lemma {:induction false} SffStarvation(cap: nat, big: Request, small: Request, n: nat)
    requires cap >= 2 && small.filesize < big.filesize
    ensures Replay(Sff, cap, [big], Rounds(small, n)) == Some([big])
    ensures Track(Sff, cap, [big], Rounds(small, n), 0) == Some(0)
    ensures Outs(Rounds(small, n)) == seq(n, _ => small)
    decreases n
  {
    if n > 0 {
      var log := Rounds(small, n);
      var q1 := [big, small];
      assert [big] + [small] == q1;
      LeftmostMinUnique(q1, 1);
      assert Without(q1, 1) == [big];
      assert log[1..][0] == Got(small);
      assert log[1..][1..] == Rounds(small, n - 1);
      SffStarvation(cap, big, small, n - 1);
      assert Outs(log[1..]) == [small] + Outs(Rounds(small, n - 1));
    }
  }
}
