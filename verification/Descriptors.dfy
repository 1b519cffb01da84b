/** Connections and the descriptors that denote them. The kernel may reuse a
    number as soon as it has been closed, so a write or a close through a stale
    number would reach another client's connection. */
module Descriptors {
  import opened RequestHandling
  import opened LineReader

  /** conns: every connection accepted so far, by serial number.
      open: the open descriptors and the connection each denotes.
      output, closes: per connection, the bytes written and the closes.
      failed: an _or_die check has failed, and the process is gone. */
  datatype World = World(conns: seq<Conn>, open: map<int, nat>, output: seq<string>, closes: seq<nat>, failed: bool)

  const BOOT: World := World([], map[], [], [], false)

  predicate Shaped(w: World) {
    && |w.conns| == |w.output| == |w.closes|
    && forall fd :: fd in w.open ==> w.open[fd] < |w.conns|
  }

  /** accept returns descriptor fd for a new connection. */
  function AcceptOn(w: World, fd: int, c: Conn): World {
    w.(conns := w.conns + [c], open := w.open[fd := |w.conns|], output := w.output + [""], closes := w.closes + [0])
  }

  function WriteTo(w: World, fd: int, s: string): World {
    if fd in w.open && w.open[fd] < |w.output| then
      w.(output := w.output[w.open[fd] := w.output[w.open[fd]] + s])
    else w.(failed := true)
  }

  function WriteAll(w: World, fd: int, writes: seq<string>): World
    decreases |writes|
  {
    if writes == [] then w else WriteAll(WriteTo(w, fd, writes[0]), fd, writes[1..])
  }

  function CloseFd(w: World, fd: int): World {
    if fd in w.open && w.open[fd] < |w.closes| then
      w.(open := w.open - {fd}, closes := w.closes[w.open[fd] := w.closes[w.open[fd]] + 1])
    else w.(failed := true)
  }

  lemma {:induction false} WriteAllAppends(w: World, fd: int, writes: seq<string>)
    requires Shaped(w) && fd in w.open
    ensures WriteAll(w, fd, writes) == WriteTo(w, fd, Join(writes))
    decreases |writes|
  {
    var n := w.open[fd];
    if writes == [] {
      assert w.output[n] + "" == w.output[n];
      assert w.output[n := w.output[n]] == w.output;
    } else {
      var w' := WriteTo(w, fd, writes[0]);
      WriteAllAppends(w', fd, writes[1..]);
      assert w.output[n] + writes[0] + Join(writes[1..]) == w.output[n] + Join(writes);
      assert w'.output[n := w'.output[n] + Join(writes[1..])] == w.output[n := w.output[n] + Join(writes)];
    }
  }

  lemma {:induction false} WriteAllConcat(w: World, fd: int, a: seq<string>, b: seq<string>)
    ensures WriteAll(w, fd, a + b) == WriteAll(WriteAll(w, fd, a), fd, b)
    decreases |a|
  {
    if a == [] {
      assert a + b == b;
    } else {
      assert (a + b)[1..] == a[1..] + b;
      WriteAllConcat(WriteTo(w, fd, a[0]), fd, a[1..], b);
    }
  }

  lemma WithoutOne(open: map<int, nat>, fd: int)
    requires fd in open
    ensures |open - {fd}| == |open| - 1
  {
    assert (open - {fd}).Keys == open.Keys - {fd};
  }

  lemma WithOneMore(open: map<int, nat>, fd: int, n: nat)
    requires fd !in open
    ensures |open[fd := n]| == |open| + 1
  {
    assert open[fd := n].Keys == open.Keys + {fd};
  }
}
