/** Sums of a natural number per element. */
module Folds {

  function Count<T>(f: T -> nat, s: seq<T>): nat
    decreases |s|
  {
    if s == [] then 0 else Count(f, s[..|s| - 1]) + f(s[|s| - 1])
  }

  lemma {:induction false} CountUpdate<T>(f: T -> nat, s: seq<T>, k: nat, x: T)
    requires k < |s|
    ensures Count(f, s[k := x]) + f(s[k]) == Count(f, s) + f(x)
    decreases |s|
  {
    var init := s[..|s| - 1];
    if k == |s| - 1 {
      assert s[k := x][..|s| - 1] == init;
    } else {
      assert s[k := x][..|s| - 1] == init[k := x];
      CountUpdate(f, init, k, x);
    }
  }

  lemma {:induction false} CountAtLeast<T>(f: T -> nat, s: seq<T>, k: nat)
    requires k < |s|
    ensures f(s[k]) <= Count(f, s)
    decreases |s|
  {
    if k < |s| - 1 {
      CountAtLeast(f, s[..|s| - 1], k);
    }
  }

  lemma {:induction false} CountTwo<T>(f: T -> nat, s: seq<T>, j: nat, k: nat)
    requires j < k < |s|
    ensures f(s[j]) + f(s[k]) <= Count(f, s)
    decreases |s|
  {
    if k < |s| - 1 {
      CountTwo(f, s[..|s| - 1], j, k);
    } else {
      CountAtLeast(f, s[..k], j);
    }
  }

  lemma {:induction false} CountConcat<T>(f: T -> nat, a: seq<T>, b: seq<T>)
    ensures Count(f, a + b) == Count(f, a) + Count(f, b)
    decreases |b|
  {
    if b == [] {
      assert a + b == a;
    } else {
      assert (a + b)[..|a + b| - 1] == a + b[..|b| - 1];
      CountConcat(f, a, b[..|b| - 1]);
    }
  }

  lemma CountOne<T>(f: T -> nat, x: T)
    ensures Count(f, [x]) == f(x)
  {
    assert [x][..0] == [];
  }

  lemma {:induction false} CountNone<T>(f: T -> nat, s: seq<T>)
    requires forall k :: 0 <= k < |s| ==> f(s[k]) == 0
    ensures Count(f, s) == 0
    decreases |s|
  {
    if s != [] {
      CountNone(f, s[..|s| - 1]);
    }
  }

  lemma {:induction false} CountSome<T>(f: T -> nat, s: seq<T>) returns (k: nat)
    requires Count(f, s) > 0
    ensures k < |s| && f(s[k]) > 0
    decreases |s|
  {
    k := |s| - 1;
    if f(s[k]) == 0 {
      k := CountSome(f, s[..k]);
    }
  }

  lemma {:induction false} CountAtMost<T>(f: T -> nat, s: seq<T>)
    requires forall k :: 0 <= k < |s| ==> f(s[k]) <= 1
    ensures Count(f, s) <= |s|
    decreases |s|
  {
    if s != [] {
      CountAtMost(f, s[..|s| - 1]);
    }
  }

  lemma CountFirst<T>(f: T -> nat, s: seq<T>)
    requires s != []
    ensures Count(f, s) == f(s[0]) + Count(f, s[1..])
  {
    assert s == [s[0]] + s[1..];
    CountConcat(f, [s[0]], s[1..]);
    CountOne(f, s[0]);
  }

  lemma CountWithout<T>(f: T -> nat, s: seq<T>, k: nat)
    requires k < |s|
    ensures Count(f, s) == f(s[k]) + Count(f, s[..k] + s[k + 1..])
  {
    assert s == s[..k] + s[k..];
    CountConcat(f, s[..k], s[k..]);
    CountFirst(f, s[k..]);
    CountConcat(f, s[..k], s[k + 1..]);
  }

  lemma BagWithout<T>(s: seq<T>, k: nat)
    requires k < |s|
    ensures multiset(s) == multiset{s[k]} + multiset(s[..k] + s[k + 1..])
  {
    assert s == s[..k] + ([s[k]] + s[k + 1..]);
  }

  /** The count depends on the elements and not on their order. */
  lemma {:induction false} CountOfBag<T>(f: T -> nat, a: seq<T>, b: seq<T>)
    requires multiset(a) == multiset(b)
    ensures Count(f, a) == Count(f, b)
    decreases |a|
  {
    if a == [] {
      assert |multiset(b)| == 0;
    } else {
      assert a[0] in multiset(b);
      var k :| 0 <= k < |b| && b[k] == a[0];
      BagWithout(a, 0);
      BagWithout(b, k);
      assert a[..0] + a[1..] == a[1..];
      assert multiset(a[1..]) == multiset(a) - multiset{a[0]};
      assert multiset(b[..k] + b[k + 1..]) == multiset(b) - multiset{a[0]};
      CountFirst(f, a);
      CountWithout(f, b, k);
      CountOfBag(f, a[1..], b[..k] + b[k + 1..]);
    }
  }
}
