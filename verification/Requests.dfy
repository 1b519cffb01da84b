/** The request record the acceptor hands to the workers, the two scheduling
    policies, and which waiting request each policy takes. */
module Requests {

  datatype Option<+T> = None | Some(value: T)

  /** One parsed request (request_t). */
  datatype Request = Request(connFd: int, filename: string, cgiArgs: string, isStatic: bool, filesize: int)

  datatype Policy = Fifo | Sff

  /** Entry m is the smallest file of q, and the oldest among the smallest. */
  ghost predicate IsLeftmostMin(q: seq<Request>, m: int) {
    && 0 <= m < |q|
    && (forall k :: 0 <= k < m ==> q[m].filesize < q[k].filesize)
    && (forall k :: m <= k < |q| ==> q[m].filesize <= q[k].filesize)
  }

  function LeftmostMin(q: seq<Request>): (m: nat)
    requires q != []
    ensures IsLeftmostMin(q, m)
  {
    var last := |q| - 1;
    if last == 0 then 0
    else
      var m := LeftmostMin(q[..last]);
      if q[last].filesize < q[m].filesize then last else m
  }

  lemma LeftmostMinUnique(q: seq<Request>, m: int)
    requires IsLeftmostMin(q, m)
    ensures m == LeftmostMin(q)
  {
    var n := LeftmostMin(q);
    assert q[n].filesize <= q[m].filesize && q[m].filesize <= q[n].filesize;
  }

  /** The position in the waiting queue that the policy serves next. */
  function Chosen(p: Policy, q: seq<Request>): (m: nat)
    requires q != []
    ensures m < |q|
    ensures p.Sff? ==> IsLeftmostMin(q, m)
    ensures p.Fifo? ==> m == 0
  {
    match p
    case Fifo => 0
    case Sff => LeftmostMin(q)
  }

  function Without<T>(q: seq<T>, m: nat): (r: seq<T>)
    requires m < |q|
    ensures |r| == |q| - 1
    ensures forall k :: 0 <= k < m ==> r[k] == q[k]
    ensures forall k :: m <= k < |r| ==> r[k] == q[k + 1]
  {
    q[..m] + q[m + 1..]
  }
}
