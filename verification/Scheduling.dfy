/** What draining a full buffer does: the order it produces under each policy,
    and why the smallest-file-first order is the best one on a single server. */
module Scheduling {
  import opened Requests
  import opened BoundedQueue
  import opened Sorting

  /** The order in which a queue that gets no new entries is served. */
  function Drain(p: Policy, q: seq<Request>): (d: seq<Request>)
    ensures |d| == |q|
    decreases |q|
  {
    if q == [] then []
    else [q[Chosen(p, q)]] + Drain(p, Without(q, Chosen(p, q)))
  }

  function Puts(rs: seq<Request>): seq<Event> {
    seq(|rs|, i requires 0 <= i < |rs| => Put(rs[i]))
  }

  function Gets(rs: seq<Request>): seq<Event> {
    seq(|rs|, i requires 0 <= i < |rs| => Got(rs[i]))
  }

  lemma {:induction false} PutsReplay(p: Policy, cap: nat, q: seq<Request>, rs: seq<Request>)
    requires |q| + |rs| <= cap
    ensures Replay(p, cap, q, Puts(rs)) == Some(q + rs)
    decreases |rs|
  {
    if rs == [] {
      assert q + rs == q;
    } else {
      assert Puts(rs)[1..] == Puts(rs[1..]);
      PutsReplay(p, cap, q + [rs[0]], rs[1..]);
      assert q + [rs[0]] + rs[1..] == q + rs;
    }
  }

  lemma OneGet(p: Policy, cap: nat, q: seq<Request>, out: seq<Request>)
    requires |out| == |q| > 0
    ensures var m := Chosen(p, q);
            Replay(p, cap, q, Gets(out)) ==
            if out[0] == q[m] then Replay(p, cap, Without(q, m), Gets(out[1..])) else None
  {
    assert Gets(out)[1..] == Gets(out[1..]);
    assert Gets(out)[0] == Got(out[0]);
  }

  lemma OneDrained(p: Policy, q: seq<Request>, out: seq<Request>)
    requires |out| == |q| > 0
    ensures var m := Chosen(p, q);
            out == Drain(p, q) <==> out[0] == q[m] && out[1..] == Drain(p, Without(q, m))
  {
    assert out == [out[0]] + out[1..];
    assert Drain(p, q)[1..] == Drain(p, Without(q, Chosen(p, q)));
  }

  lemma {:induction false} GetsReplay(p: Policy, cap: nat, q: seq<Request>, out: seq<Request>)
    requires |out| == |q|
    ensures Replay(p, cap, q, Gets(out)) == if out == Drain(p, q) then Some([]) else None
    decreases |q|
  {
    if q != [] {
      OneGet(p, cap, q, out);
      OneDrained(p, q, out);
      GetsReplay(p, cap, Without(q, Chosen(p, q)), out[1..]);
    }
  }

  /** Putting any requests that fit and then getting as many: the only possible
      answers are the drain of what was put. */
  lemma FillThenDrain(p: Policy, cap: nat, rs: seq<Request>, out: seq<Request>)
    requires |rs| <= cap && |out| == |rs|
    ensures Replay(p, cap, [], Puts(rs) + Gets(out)).Some? <==> out == Drain(p, rs)
  {
    PutsReplay(p, cap, [], rs);
    assert [] + rs == rs;
    ReplayConcat(p, cap, [], Puts(rs), Gets(out));
    GetsReplay(p, cap, rs, out);
  }

  lemma {:induction false} FifoDrainIsArrivalOrder(q: seq<Request>)
    ensures Drain(Fifo, q) == q
  {
    if q != [] {
      assert Without(q, 0) == q[1..];
      FifoDrainIsArrivalOrder(q[1..]);
    }
  }

  // ---- The SFF drain is the stable sort by size ----

  predicate SortedBySize(s: seq<Request>) {
    forall i, j :: 0 <= i < j < |s| ==> s[i].filesize <= s[j].filesize
  }

  function BySize(): Request -> real {
    (r: Request) => r.filesize as real
  }

  function Insert(r: Request, s: seq<Request>): seq<Request> {
    InsertBy(BySize(), r, s)
  }

  /** The stable sort by file size. */
  function StableSort(s: seq<Request>): seq<Request> {
    SortBy(BySize(), s)
  }

  lemma {:induction false} DrainKeepsRequests(p: Policy, q: seq<Request>)
    ensures multiset(Drain(p, q)) == multiset(q)
    decreases |q|
  {
    if q != [] {
      var m := Chosen(p, q);
      SplitAt(q, m);
      DrainKeepsRequests(p, Without(q, m));
    }
  }

  lemma {:induction false} DrainKeepsEachSizeInOrder(p: Policy, q: seq<Request>, size: int)
    ensures OfSize(Drain(p, q), size) == OfSize(q, size)
    decreases |q|
  {
    if q != [] {
      var m := Chosen(p, q);
      ChosenIsOldestOfItsSize(p, q, size);
      DrainKeepsEachSizeInOrder(p, Without(q, m), size);
      assert Drain(p, q)[1..] == Drain(p, Without(q, m));
    }
  }

  lemma {:induction false} SffDrainSorted(q: seq<Request>)
    ensures SortedBySize(Drain(Sff, q))
    decreases |q|
  {
    if q != [] {
      var m := Chosen(Sff, q);
      var rest := Without(q, m);
      SffDrainSorted(rest);
      DrainKeepsRequests(Sff, rest);
      var d := Drain(Sff, rest);
      forall k | 0 <= k < |d| ensures q[m].filesize <= d[k].filesize {
        assert d[k] in multiset(d);
        assert d[k] in rest;
      }
    }
  }

  lemma {:induction false} InsertKeepsEachSizeInOrder(r: Request, s: seq<Request>, size: int)
    ensures OfSize(Insert(r, s), size) == OfSize([r] + s, size)
  {
    assert ([r] + s)[1..] == s;
    if s != [] && r.filesize > s[0].filesize {
      InsertKeepsEachSizeInOrder(r, s[1..], size);
      assert ([r] + s[1..])[1..] == s[1..];
      assert Insert(r, s)[1..] == Insert(r, s[1..]);
    }
  }

  lemma StableSortSorted(s: seq<Request>)
    ensures SortedBySize(StableSort(s))
    ensures multiset(StableSort(s)) == multiset(s)
  {
    SortSorted(BySize(), s);
    SortKeeps(BySize(), s);
    assert forall i :: 0 <= i < |s| ==> BySize()(StableSort(s)[i]) == StableSort(s)[i].filesize as real;
  }

  lemma {:induction false} StableSortKeepsEachSizeInOrder(s: seq<Request>, size: int)
    ensures OfSize(StableSort(s), size) == OfSize(s, size)
  {
    if s != [] {
      StableSortKeepsEachSizeInOrder(s[1..], size);
      InsertKeepsEachSizeInOrder(s[0], StableSort(s[1..]), size);
      assert ([s[0]] + StableSort(s[1..]))[1..] == StableSort(s[1..]);
    }
  }

  /** A sorted sequence is fixed by the order of each size within it. */
  lemma {:induction false} SortedIsFixedByItsSizes(a: seq<Request>, b: seq<Request>)
    requires SortedBySize(a) && SortedBySize(b) && |a| == |b|
    requires forall size :: OfSize(a, size) == OfSize(b, size)
    ensures a == b
  {
    if a != [] {
      HeadIsLeast(a, b);
      HeadIsLeast(b, a);
      assert OfSize(a, a[0].filesize)[0] == a[0];
      assert OfSize(b, b[0].filesize)[0] == b[0];
      forall size ensures OfSize(a[1..], size) == OfSize(b[1..], size) {
        assert OfSize(a, size) == OfSize(b, size);
        var mine := if a[0].filesize == size then [a[0]] else [];
        assert OfSize(a[1..], size) == OfSize(a, size)[|mine|..];
        assert OfSize(b[1..], size) == OfSize(b, size)[|mine|..];
      }
      SortedIsFixedByItsSizes(a[1..], b[1..]);
      assert a == [a[0]] + a[1..] && b == [b[0]] + b[1..];
    }
  }

  lemma HeadIsLeast(a: seq<Request>, b: seq<Request>)
    requires a != [] && b != [] && SortedBySize(b)
    requires OfSize(a, a[0].filesize) == OfSize(b, a[0].filesize)
    ensures b[0].filesize <= a[0].filesize
  {
    if b[0].filesize > a[0].filesize {
      NoneOfSize(b, a[0].filesize);
    }
  }

  /** SFF drains a buffer in exactly the stable order of file size: sorted, and
      arrival order among equal sizes. */
  lemma SffDrainIsStableSort(q: seq<Request>)
    ensures Drain(Sff, q) == StableSort(q)
  {
    SffDrainSorted(q);
    StableSortSorted(q);
    assert |multiset(StableSort(q))| == |multiset(q)|;
    forall size ensures OfSize(Drain(Sff, q), size) == OfSize(StableSort(q), size) {
      DrainKeepsEachSizeInOrder(Sff, q, size);
      StableSortKeepsEachSizeInOrder(q, size);
    }
    SortedIsFixedByItsSizes(Drain(Sff, q), StableSort(q));
  }

  // ---- Shortest job first ----

  /** The sum of completion times when one server, free at time t, serves the
      requests in this order and each takes time equal to its file size. */
  function CompletionSum(order: seq<Request>, t: int): int {
    if order == [] then 0
    else t + order[0].filesize + CompletionSum(order[1..], t + order[0].filesize)
  }

  function TotalSize(order: seq<Request>): int {
    if order == [] then 0 else order[0].filesize + TotalSize(order[1..])
  }

  /** The last one to be served is done when all of them have had their time, and adds
      that moment to the sum. */
  lemma {:induction false} CompletionOfLast(order: seq<Request>, r: Request, t: int)
    ensures CompletionSum(order + [r], t) == CompletionSum(order, t) + (t + TotalSize(order) + r.filesize)
    decreases |order|
  {
    if order == [] {
      assert [] + [r] == [r] && [r][1..] == [];
    } else {
      assert (order + [r])[1..] == order[1..] + [r];
      CompletionOfLast(order[1..], r, t + order[0].filesize);
    }
  }

  /** Serving a request before all the larger ones ahead of it does not hurt. */
  lemma {:induction false} MoveToFront(s: seq<Request>, j: nat, t: int)
    requires j < |s|
    requires forall i :: 0 <= i < j ==> s[j].filesize <= s[i].filesize
    ensures CompletionSum([s[j]] + Without(s, j), t) <= CompletionSum(s, t)
    decreases j
  {
    var x, w := s[j], Without(s, j);
    if j == 0 {
      assert [x] + w == s;
    } else {
      var a, w' := s[0], Without(s[1..], j - 1);
      MoveToFront(s[1..], j - 1, t + a.filesize);
      assert w == [a] + w';
      SumOfCons(x, w, t);
      SumOfCons(a, w', t + x.filesize);
      SumOfCons(x, w', t + a.filesize);
    }
  }

  lemma PositionIn(a: seq<Request>, b: seq<Request>, i: nat) returns (j: nat)
    requires multiset(a) == multiset(b) && i < |a|
    ensures j < |b| && b[j] == a[i]
    ensures multiset(Without(a, i)) == multiset(Without(b, j))
  {
    assert a[i] in multiset(b);
    j :| 0 <= j < |b| && b[j] == a[i];
    SplitAt(a, i);
    SplitAt(b, j);
    assert multiset(Without(a, i)) == multiset(a) - multiset{a[i]};
    assert multiset(Without(b, j)) == multiset(b) - multiset{a[i]};
  }

  lemma SumOfCons(x: Request, s: seq<Request>, t: int)
    ensures CompletionSum([x] + s, t) == t + x.filesize + CompletionSum(s, t + x.filesize)
  {
    assert ([x] + s)[1..] == s;
  }

  lemma LeastComesForward(q: seq<Request>, order: seq<Request>, j: nat)
    requires q != [] && multiset(order) == multiset(q) && j < |order| && order[j] == q[Chosen(Sff, q)]
    ensures forall i :: 0 <= i < j ==> order[j].filesize <= order[i].filesize
  {
    forall i | 0 <= i < j ensures order[j].filesize <= order[i].filesize {
      var k := PositionIn(order, q, i);
    }
  }

  lemma LeastFirst(q: seq<Request>, order: seq<Request>, t: int) returns (rest: seq<Request>)
    requires q != [] && multiset(order) == multiset(q)
    ensures var m := Chosen(Sff, q);
            multiset(rest) == multiset(Without(q, m)) && CompletionSum([q[m]] + rest, t) <= CompletionSum(order, t)
  {
    var j := PositionIn(q, order, Chosen(Sff, q));
    LeastComesForward(q, order, j);
    MoveToFront(order, j, t);
    rest := Without(order, j);
  }

  lemma NothingToOrder(order: seq<Request>)
    requires multiset(order) == multiset{}
    ensures order == []
  {
    assert |multiset(order)| == 0;
  }

  /** No order of the same requests has a smaller sum of completion times than
      the SFF drain. */
  lemma {:induction false} SffMinimisesCompletionSum(q: seq<Request>, order: seq<Request>, t: int)
    requires multiset(order) == multiset(q)
    ensures CompletionSum(Drain(Sff, q), t) <= CompletionSum(order, t)
    decreases |q|
  {
    if q == [] {
      NothingToOrder(order);
    } else {
      var m := Chosen(Sff, q);
      var rest := LeastFirst(q, order, t);
      SumOfCons(q[m], rest, t);
      SumOfCons(q[m], Drain(Sff, Without(q, m)), t);
      SffMinimisesCompletionSum(Without(q, m), rest, t + q[m].filesize);
    }
  }

  /** Any inversion costs: swapping two neighbours that are out of order strictly
      lowers the sum. */
  lemma {:induction false} SwapImproves(s: seq<Request>, i: nat, t: int)
    requires i + 1 < |s| && s[i].filesize > s[i + 1].filesize
    ensures CompletionSum(s[i := s[i + 1]][i + 1 := s[i]], t) < CompletionSum(s, t)
    decreases i
  {
    var s' := s[i := s[i + 1]][i + 1 := s[i]];
    if i == 0 {
      assert s'[1..][1..] == s[1..][1..];
    } else {
      SwapImproves(s[1..], i - 1, t + s[0].filesize);
      assert s'[1..] == s[1..][i - 1 := s[i + 1]][i := s[i]];
    }
  }

  lemma {:induction false} NeighboursSorted(s: seq<Request>)
    requires forall i :: 0 <= i < |s| - 1 ==> s[i].filesize <= s[i + 1].filesize
    ensures SortedBySize(s)
  {
    if |s| > 1 {
      var init := s[..|s| - 1];
      NeighboursSorted(init);
      forall i, j | 0 <= i < j < |s| ensures s[i].filesize <= s[j].filesize {
        assert i < |s| - 2 ==> init[i].filesize <= init[|s| - 2].filesize;
        assert j < |s| - 1 ==> init[i].filesize <= init[j].filesize;
      }
    }
  }

  lemma {:induction false} SortedIsItsOwnSort(s: seq<Request>)
    requires SortedBySize(s)
    ensures StableSort(s) == s
  {
    if s != [] {
      SortedIsItsOwnSort(s[1..]);
      assert s == [s[0]] + s[1..];
    }
  }

  lemma UnsortedIsWorse(q: seq<Request>, order: seq<Request>, t: int)
    requires multiset(order) == multiset(q) && !SortedBySize(order)
    ensures CompletionSum(Drain(Sff, q), t) < CompletionSum(order, t)
  {
    if forall i :: 0 <= i < |order| - 1 ==> order[i].filesize <= order[i + 1].filesize {
      NeighboursSorted(order);
    }
    var i :| 0 <= i < |order| - 1 && order[i].filesize > order[i + 1].filesize;
    SwapImproves(order, i, t);
    var swapped := order[i := order[i + 1]][i + 1 := order[i]];
    assert multiset(swapped) == multiset(order);
    SffMinimisesCompletionSum(q, swapped, t);
  }

  /** An order of the requests is as good as the SFF drain exactly when it is
      sorted by size; the FIFO drain is, exactly when the arrivals were sorted. */
  lemma OptimalIffSorted(q: seq<Request>, order: seq<Request>, t: int)
    requires multiset(order) == multiset(q)
    ensures CompletionSum(order, t) == CompletionSum(Drain(Sff, q), t) <==> SortedBySize(order)
    ensures CompletionSum(Drain(Sff, q), t) <= CompletionSum(Drain(Fifo, q), t)
    ensures CompletionSum(Drain(Sff, q), t) == CompletionSum(Drain(Fifo, q), t) <==> SortedBySize(q)
  {
    FifoDrainIsArrivalOrder(q);
    OrderVerdict(q, q, t);
    OrderVerdict(q, order, t);
  }

  lemma OrderVerdict(q: seq<Request>, order: seq<Request>, t: int)
    requires multiset(order) == multiset(q)
    ensures CompletionSum(Drain(Sff, q), t) <= CompletionSum(order, t)
    ensures CompletionSum(order, t) == CompletionSum(Drain(Sff, q), t) <==> SortedBySize(order)
  {
    if SortedBySize(order) {
      SffDrainIsStableSort(order);
      SortedIsItsOwnSort(order);
      DrainKeepsRequests(Sff, q);
      SffMinimisesCompletionSum(order, Drain(Sff, q), t);
      SffMinimisesCompletionSum(q, order, t);
    } else {
      UnsortedIsWorse(q, order, t);
    }
  }
}
