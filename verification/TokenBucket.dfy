/** The load client's dispatcher: a token bucket driven by readings of a clock. */
module TokenBucket {

  function Min(a: real, b: real): real {
    if a <= b then a else b
  }

  /** What the time between two readings is worth. */
  function Gain(rate: real, lastTick: real, now: real): real {
    (now - lastTick) * rate
  }

  /** What each reading of the clock adds to the bucket before the cap. */
  function Gains(rate: real, lastTick: real, clock: seq<real>): (g: seq<real>)
    ensures |g| == |clock|
    decreases |clock|
  {
    if clock == [] then [] else [Gain(rate, lastTick, clock[0])] + Gains(rate, clock[0], clock[1..])
  }

  /** The bucket after a refill, and after the token that a full enough bucket
      pays for a dispatch. */
  function Fill(rate: real, tokens: real, gain: real): real {
    Min(tokens + gain, rate)
  }

  function Spend(tokens: real): real {
    if tokens >= 1.0 then tokens - 1.0 else tokens
  }

  /** The bucket after all the gains. */
  function Left(rate: real, tokens: real, gains: seq<real>): real
    decreases |gains|
  {
    if gains == [] then tokens else Left(rate, Spend(Fill(rate, tokens, gains[0])), gains[1..])
  }

  /** How many gains brought the bucket to a whole token. */
  function Sent(rate: real, tokens: real, gains: seq<real>): nat
    decreases |gains|
  {
    if gains == [] then 0
    else (if Fill(rate, tokens, gains[0]) >= 1.0 then 1 else 0)
         + Sent(rate, Spend(Fill(rate, tokens, gains[0])), gains[1..])
  }

  /** What the cap threw away. */
  function Spilled(rate: real, tokens: real, gains: seq<real>): real
    decreases |gains|
  {
    if gains == [] then 0.0
    else (tokens + gains[0] - Fill(rate, tokens, gains[0]))
         + Spilled(rate, Spend(Fill(rate, tokens, gains[0])), gains[1..])
  }

  function Total(gains: seq<real>): real {
    if gains == [] then 0.0 else gains[0] + Total(gains[1..])
  }

  /** The readings at which requests are dispatched. */
  function SendTimes(rate: real, tokens: real, gains: seq<real>, clock: seq<real>): (times: seq<real>)
    requires |gains| == |clock|
    ensures |times| == Sent(rate, tokens, gains)
    decreases |gains|
  {
    if gains == [] then []
    else (if Fill(rate, tokens, gains[0]) >= 1.0 then [clock[0]] else [])
         + SendTimes(rate, Spend(Fill(rate, tokens, gains[0])), gains[1..], clock[1..])
  }

  /** The readings are no earlier than start and never go back. */
  predicate Forward(start: real, clock: seq<real>)
    decreases |clock|
  {
    clock == [] || (start <= clock[0] && Forward(clock[0], clock[1..]))
  }

  function LastReading(start: real, clock: seq<real>): real {
    if clock == [] then start else clock[|clock| - 1]
  }

  /** The readings before the first one at or past the deadline. */
  function Before(clock: seq<real>, deadline: real): (r: seq<real>)
    ensures |r| <= |clock| && r == clock[..|r|]
    ensures forall k :: 0 <= k < |r| ==> r[k] < deadline
    ensures |r| < |clock| ==> clock[|r|] >= deadline
  {
    if clock == [] || clock[0] >= deadline then [] else [clock[0]] + Before(clock[1..], deadline)
  }

  /** What a run of the dispatcher sends whose bucket starts at reading first. */
  function RunOf(rate: real, tokens: real, first: real, clock: seq<real>): seq<real> {
    SendTimes(rate, tokens, Gains(rate, first, clock), clock)
  }

  /** dispatcher_fn. base is the reading the deadline is counted from, first the
      one that the bucket starts at, clock the readings of the loop. */
  method Dispatch(rate: real, duration: real, base: real, first: real, clock: seq<real>)
    returns (sent: seq<real>, stopped: bool)
    ensures sent == RunOf(rate, 1.0, first, Before(clock, base + duration))
    ensures stopped <==> exists k :: 0 <= k < |clock| && clock[k] >= base + duration
  {
    var deadline := base + duration;
    var tokens, lastTick := 1.0, first;
    sent, stopped := [], false;
    ghost var all := RunOf(rate, 1.0, first, Before(clock, deadline));
    var k := 0;
    assert clock[0..] == clock && [] + all == all;
    while k < |clock|
      invariant 0 <= k <= |clock| && !stopped
      invariant forall j :: 0 <= j < k ==> clock[j] < deadline
      invariant all == sent + RunOf(rate, tokens, lastTick, Before(clock[k..], deadline))
    {
      var now := clock[k];
      if now >= deadline {
        stopped := true;
        break;
      }
      OneTurn(rate, tokens, lastTick, clock, k, deadline, sent);
      tokens := Fill(rate, tokens, Gain(rate, lastTick, now));
      lastTick := now;
      if tokens >= 1.0 {
        tokens := tokens - 1.0;
        sent := sent + [now];
      }
      k := k + 1;
    }
  }

  lemma OneTurn(rate: real, tokens: real, lastTick: real, clock: seq<real>, k: nat, deadline: real, sent: seq<real>)
    requires k < |clock| && clock[k] < deadline
    ensures var full := Fill(rate, tokens, Gain(rate, lastTick, clock[k]));
            sent + RunOf(rate, tokens, lastTick, Before(clock[k..], deadline)) ==
            (if full >= 1.0 then sent + [clock[k]] else sent)
            + RunOf(rate, Spend(full), clock[k], Before(clock[k + 1..], deadline))
  {
    assert clock[k..][1..] == clock[k + 1..];
    var now, rest := clock[k], Before(clock[k + 1..], deadline);
    assert Before(clock[k..], deadline) == [now] + rest;
    Unfold(rate, tokens, lastTick, now, rest);
  }

  lemma Unfold(rate: real, tokens: real, lastTick: real, now: real, rest: seq<real>)
    ensures var full := Fill(rate, tokens, Gain(rate, lastTick, now));
            RunOf(rate, tokens, lastTick, [now] + rest) ==
            (if full >= 1.0 then [now] else []) + RunOf(rate, Spend(full), now, rest)
  {
    assert ([now] + rest)[1..] == rest;
    var gain, later := Gain(rate, lastTick, now), Gains(rate, now, rest);
    assert Gains(rate, lastTick, [now] + rest) == [gain] + later;
    assert ([gain] + later)[1..] == later;
  }

  // ---- The books balance ----

  predicate NonNegative(gains: seq<real>) {
    forall k :: 0 <= k < |gains| ==> gains[k] >= 0.0
  }

  /** Every token is in the bucket, spent or spilled; the bucket never goes below
      zero or above rate. */
  lemma {:induction false} Balance(rate: real, tokens: real, gains: seq<real>)
    requires rate >= 1.0 && 0.0 <= tokens <= rate && NonNegative(gains)
    ensures 0.0 <= Left(rate, tokens, gains) <= rate
    ensures Left(rate, tokens, gains) + Sent(rate, tokens, gains) as real + Spilled(rate, tokens, gains) ==
            tokens + Total(gains)
    ensures Spilled(rate, tokens, gains) >= 0.0
    decreases |gains|
  {
    if gains != [] {
      Balance(rate, Spend(Fill(rate, tokens, gains[0])), gains[1..]);
    }
  }

  lemma GainIsNatural(rate: real, lastTick: real, now: real)
    requires rate >= 0.0 && lastTick <= now
    ensures Gain(rate, lastTick, now) >= 0.0
  {
  }

  lemma GainsJoin(rate: real, a: real, b: real, c: real)
    ensures Gain(rate, a, b) + Gain(rate, b, c) == Gain(rate, a, c)
  {
  }

  lemma GainIsProduct(rate: real, a: real, b: real)
    ensures Gain(rate, a, b) == rate * (b - a)
  {
  }

  lemma NoGain(rate: real, a: real)
    ensures Gain(rate, a, a) == 0.0
  {
  }

  lemma {:induction false} GainsAreNatural(rate: real, start: real, clock: seq<real>)
    requires rate >= 0.0 && Forward(start, clock)
    ensures NonNegative(Gains(rate, start, clock)) && LastReading(start, clock) >= start
    decreases |clock|
  {
    if clock != [] {
      GainsAreNatural(rate, clock[0], clock[1..]);
      GainIsNatural(rate, start, clock[0]);
    }
  }

  lemma {:induction false} GainsAddUp(rate: real, start: real, clock: seq<real>)
    ensures Total(Gains(rate, start, clock)) == Gain(rate, start, LastReading(start, clock))
    decreases |clock|
  {
    if clock == [] {
      NoGain(rate, start);
    } else {
      var later := Gains(rate, clock[0], clock[1..]);
      GainsAddUp(rate, clock[0], clock[1..]);
      GainsJoin(rate, start, clock[0], LastReading(start, clock));
      TotalOfCons(Gain(rate, start, clock[0]), later);
    }
  }

  lemma TotalOfCons(gain: real, later: seq<real>)
    ensures Total([gain] + later) == gain + Total(later)
  {
    assert ([gain] + later)[1..] == later;
  }

  /** In a run of the dispatcher, the tokens left, the requests sent and the tokens
      spilled add up to the first token and rate times the elapsed time. */
  lemma RunBalance(rate: real, first: real, clock: seq<real>)
    requires rate >= 1.0 && Forward(first, clock)
    ensures var g := Gains(rate, first, clock);
            && 0.0 <= Left(rate, 1.0, g) <= rate
            && Spilled(rate, 1.0, g) >= 0.0
            && Left(rate, 1.0, g) + |RunOf(rate, 1.0, first, clock)| as real + Spilled(rate, 1.0, g) ==
               1.0 + rate * (LastReading(first, clock) - first)
  {
    GainsAreNatural(rate, first, clock);
    GainsAddUp(rate, first, clock);
    GainIsProduct(rate, first, LastReading(first, clock));
    Balance(rate, 1.0, Gains(rate, first, clock));
  }

  // ---- Bounds ----

  /** However full the bucket was, a stretch of the run sends at most the cap plus
      what its later readings add. */
  lemma StretchBound(rate: real, tokens: real, gains: seq<real>)
    requires rate >= 1.0 && 0.0 <= tokens <= rate && NonNegative(gains) && gains != []
    ensures Sent(rate, tokens, gains) as real <= rate + Total(gains[1..])
  {
    Balance(rate, Spend(Fill(rate, tokens, gains[0])), gains[1..]);
  }

  lemma {:induction false} SplitRun(rate: real, tokens: real, a: seq<real>, b: seq<real>, ca: seq<real>, cb: seq<real>)
    requires |a| == |ca| && |b| == |cb|
    ensures SendTimes(rate, tokens, a + b, ca + cb) ==
            SendTimes(rate, tokens, a, ca) + SendTimes(rate, Left(rate, tokens, a), b, cb)
    decreases |a|
  {
    if a == [] {
      assert a + b == b && ca + cb == cb;
    } else {
      assert (a + b)[1..] == a[1..] + b && (ca + cb)[1..] == ca[1..] + cb;
      SplitRun(rate, Spend(Fill(rate, tokens, a[0])), a[1..], b, ca[1..], cb);
    }
  }

  /** A request goes out at reading k if and only if the bucket then holds a whole
      token after its refill, and it carries that reading. */
  lemma ReadingSends(rate: real, tokens: real, first: real, clock: seq<real>, k: nat)
    requires k < |clock|
    ensures var before := Gains(rate, first, clock[..k]);
            var full := Fill(rate, Left(rate, tokens, before), Gain(rate, LastReading(first, clock[..k]), clock[k]));
            RunOf(rate, tokens, first, clock[..k + 1]) ==
            RunOf(rate, tokens, first, clock[..k]) + if full >= 1.0 then [clock[k]] else []
  {
    var a, now := clock[..k], clock[k];
    var at := LastReading(first, a);
    assert clock[..k + 1] == a + [now];
    SplitGains(rate, first, a, [now]);
    var before, gain := Gains(rate, first, a), Gain(rate, at, now);
    OneReading(rate, at, now);
    SplitRun(rate, tokens, before, [gain], a, [now]);
    OneSend(rate, Left(rate, tokens, before), gain, now);
  }

  lemma OneReading(rate: real, lastTick: real, now: real)
    ensures Gains(rate, lastTick, [now]) == [Gain(rate, lastTick, now)]
  {
    assert [now][1..] == [];
  }

  lemma OneSend(rate: real, tokens: real, gain: real, now: real)
    ensures SendTimes(rate, tokens, [gain], [now]) == if Fill(rate, tokens, gain) >= 1.0 then [now] else []
  {
    assert [gain][1..] == [] && [now][1..] == [];
  }

  lemma {:induction false} SplitGains(rate: real, start: real, a: seq<real>, b: seq<real>)
    ensures Gains(rate, start, a + b) == Gains(rate, start, a) + Gains(rate, LastReading(start, a), b)
    ensures Forward(start, a + b) ==> Forward(start, a) && Forward(LastReading(start, a), b)
    decreases |a|
  {
    if a == [] {
      assert a + b == b;
    } else {
      assert (a + b)[1..] == a[1..] + b;
      SplitGains(rate, a[0], a[1..], b);
    }
  }

  lemma TotalAfterFirst(rate: real, start: real, window: seq<real>)
    requires window != []
    ensures Total(Gains(rate, start, window)[1..]) == Gain(rate, window[0], window[|window| - 1])
  {
    GainsAddUp(rate, window[0], window[1..]);
    assert Gains(rate, start, window)[1..] == Gains(rate, window[0], window[1..]);
  }

  lemma WindowOfRun(rate: real, tokens: real, start: real, window: seq<real>)
    requires rate >= 1.0 && 0.0 <= tokens <= rate && Forward(start, window) && window != []
    ensures |RunOf(rate, tokens, start, window)| as real <= rate + Gain(rate, window[0], window[|window| - 1])
  {
    GainsAreNatural(rate, start, window);
    TotalAfterFirst(rate, start, window);
    StretchBound(rate, tokens, Gains(rate, start, window));
  }

  lemma WindowInRun(rate: real, first: real, before: seq<real>, window: seq<real>, after: seq<real>)
    ensures var tokens := Left(rate, 1.0, Gains(rate, first, before));
            var inside := RunOf(rate, tokens, LastReading(first, before), window);
            RunOf(rate, 1.0, first, before) + inside <= RunOf(rate, 1.0, first, before + (window + after))
    ensures Forward(first, before + (window + after)) ==>
              Forward(first, before) && Forward(LastReading(first, before), window)
  {
    var rest, at := window + after, LastReading(first, before);
    SplitGains(rate, first, before, rest);
    SplitGains(rate, at, window, after);
    var gb, gw := Gains(rate, first, before), Gains(rate, at, window);
    var ga := Gains(rate, LastReading(at, window), after);
    SplitRun(rate, 1.0, gb, gw + ga, before, rest);
    SplitRun(rate, Left(rate, 1.0, gb), gw, ga, window, after);
    assert RunOf(rate, 1.0, first, before + rest) ==
           (RunOf(rate, 1.0, first, before) + RunOf(rate, Left(rate, 1.0, gb), at, window))
           + SendTimes(rate, Left(rate, Left(rate, 1.0, gb), gw), ga, after);
  }

  /** Whatever window of a run one looks at, the dispatches in it number at most
      rate plus rate times its length. */
  lemma AnyWindow(rate: real, first: real, before: seq<real>, window: seq<real>, after: seq<real>)
    requires rate >= 1.0 && Forward(first, before + (window + after)) && window != []
    ensures var tokens := Left(rate, 1.0, Gains(rate, first, before));
            var inside := RunOf(rate, tokens, LastReading(first, before), window);
            && RunOf(rate, 1.0, first, before) + inside <= RunOf(rate, 1.0, first, before + (window + after))
            && |inside| as real <= rate + rate * (window[|window| - 1] - window[0])
  {
    WindowInRun(rate, first, before, window, after);
    GainsAreNatural(rate, first, before);
    Balance(rate, 1.0, Gains(rate, first, before));
    WindowOfRun(rate, Left(rate, 1.0, Gains(rate, first, before)), LastReading(first, before), window);
    GainIsProduct(rate, window[0], window[|window| - 1]);
  }

  lemma ShortGain(rate: real, first: real, last: real, duration: real)
    requires rate > 0.0 && last - first < duration
    ensures Gain(rate, first, last) < rate * duration
  {
    assert rate * (duration - (last - first)) > 0.0;
  }

  lemma RunEndsInTime(duration: real, base: real, first: real, clock: seq<real>)
    requires duration > 0.0 && base <= first
    ensures LastReading(first, Before(clock, base + duration)) - first < duration
  {
  }

  lemma SentWithinGain(rate: real, first: real, run: seq<real>)
    requires rate >= 1.0 && Forward(first, run)
    ensures |RunOf(rate, 1.0, first, run)| as real <= 1.0 + Gain(rate, first, LastReading(first, run))
  {
    GainsAreNatural(rate, first, run);
    GainsAddUp(rate, first, run);
    Balance(rate, 1.0, Gains(rate, first, run));
  }

  /** A whole run of the dispatcher sends fewer than 1 + rate * duration requests. */
  lemma RunBound(rate: real, duration: real, base: real, first: real, clock: seq<real>)
    requires rate >= 1.0 && duration > 0.0 && base <= first && Forward(first, Before(clock, base + duration))
    ensures |RunOf(rate, 1.0, first, Before(clock, base + duration))| as real < 1.0 + rate * duration
  {
    var run := Before(clock, base + duration);
    RunEndsInTime(duration, base, first, clock);
    SentWithinGain(rate, first, run);
    ShortGain(rate, first, LastReading(first, run), duration);
  }

  // ---- Whether the promised rate is kept ----

  /** With every gain at most one token and a cap of two or more, nothing spills. */
  lemma {:induction false} NoSpill(rate: real, tokens: real, gains: seq<real>)
    requires rate >= 2.0 && 0.0 <= tokens <= 1.0
    requires forall k :: 0 <= k < |gains| ==> 0.0 <= gains[k] <= 1.0
    ensures Spilled(rate, tokens, gains) == 0.0 && 0.0 <= Left(rate, tokens, gains) <= 1.0
    decreases |gains|
  {
    if gains != [] {
      NoSpill(rate, Spend(Fill(rate, tokens, gains[0])), gains[1..]);
    }
  }

  /** The readings are at most gap apart. */
  predicate Steady(start: real, clock: seq<real>, gap: real)
    decreases |clock|
  {
    clock == [] || (start <= clock[0] <= start + gap && Steady(clock[0], clock[1..], gap))
  }

  lemma GapIsOneToken(rate: real, lastTick: real, now: real)
    requires rate > 0.0 && now - lastTick <= 1.0 / rate
    ensures Gain(rate, lastTick, now) <= 1.0
  {
    assert (1.0 / rate) * rate == 1.0;
    assert (1.0 / rate - (now - lastTick)) * rate >= 0.0;
  }

  lemma {:induction false} SteadyGains(rate: real, start: real, clock: seq<real>)
    requires rate > 0.0 && Steady(start, clock, 1.0 / rate)
    ensures forall k :: 0 <= k < |clock| ==> 0.0 <= Gains(rate, start, clock)[k] <= 1.0
    ensures Forward(start, clock)
    decreases |clock|
  {
    if clock != [] {
      SteadyGains(rate, clock[0], clock[1..]);
      GapIsOneToken(rate, start, clock[0]);
      GainIsNatural(rate, start, clock[0]);
    }
  }

  /** The promise: whenever the loop turns at least once per interval, the requests
      sent so far are rate times the elapsed time, or up to one more. */
  ghost predicate KeepsRate(rate: real)
    requires rate > 0.0
  {
    forall start, clock :: Steady(start, clock, 1.0 / rate) ==> OnSchedule(rate, start, clock)
  }

  predicate OnSchedule(rate: real, start: real, clock: seq<real>) {
    var promised := Gain(rate, start, LastReading(start, clock));
    promised <= |RunOf(rate, 1.0, start, clock)| as real <= promised + 1.0
  }

  /** When rate is at least 2, every run keeps it. */
  lemma SteadyRate(rate: real, start: real, clock: seq<real>)
    requires rate >= 2.0 && Steady(start, clock, 1.0 / rate)
    ensures OnSchedule(rate, start, clock)
  {
    SteadyGains(rate, start, clock);
    GainsAddUp(rate, start, clock);
    NoSpill(rate, 1.0, Gains(rate, start, clock));
    Balance(rate, 1.0, Gains(rate, start, clock));
  }

  // ---- Below 2 ----

  /** Readings that bring the given gains. */
  function ClockOf(rate: real, start: real, gains: seq<real>): (clock: seq<real>)
    requires rate > 0.0
    ensures |clock| == |gains|
    decreases |gains|
  {
    if gains == [] then [] else [start + gains[0] / rate] + ClockOf(rate, start + gains[0] / rate, gains[1..])
  }

  lemma OneGain(rate: real, start: real, gain: real)
    requires rate > 0.0 && 0.0 <= gain <= 1.0
    ensures Gain(rate, start, start + gain / rate) == gain
    ensures start <= start + gain / rate <= start + 1.0 / rate
  {
    assert (gain / rate) * rate == gain && (1.0 / rate) * rate == 1.0;
    assert gain / rate >= 0.0;
    assert (1.0 - gain) / rate >= 0.0;
    assert (1.0 - gain) / rate == 1.0 / rate - gain / rate;
  }

  predicate AtMostOne(gains: seq<real>) {
    forall k :: 0 <= k < |gains| ==> 0.0 <= gains[k] <= 1.0
  }

  lemma {:induction false} ClockBringsGains(rate: real, start: real, gains: seq<real>)
    requires rate > 0.0 && AtMostOne(gains)
    ensures Gains(rate, start, ClockOf(rate, start, gains)) == gains
    ensures Steady(start, ClockOf(rate, start, gains), 1.0 / rate)
    decreases |gains|
  {
    if gains != [] {
      var next := start + gains[0] / rate;
      OneGain(rate, start, gains[0]);
      ClockBringsGains(rate, next, gains[1..]);
      assert ClockOf(rate, start, gains)[1..] == ClockOf(rate, next, gains[1..]);
    }
  }

  /** n times two gains that together exceed one token by what the cap is short of
      two, halved. */
  function Cycles(rate: real, n: nat): (gains: seq<real>)
    decreases n
  {
    if n == 0 then [] else [1.5 - 0.75 * rate, 0.5 + 0.25 * rate] + Cycles(rate, n - 1)
  }

  lemma {:induction false} CyclesAreAtMostOne(rate: real, n: nat)
    requires 1.0 <= rate < 2.0
    ensures AtMostOne(Cycles(rate, n))
    decreases n
  {
    if n > 0 {
      CyclesAreAtMostOne(rate, n - 1);
    }
  }

  /** One cycle starts and ends with the bucket at rate - 1, and spills. */
  lemma OneCycle(rate: real, later: seq<real>)
    requires 1.0 <= rate < 2.0
    ensures var gains := [1.5 - 0.75 * rate, 0.5 + 0.25 * rate] + later;
            Spilled(rate, rate - 1.0, gains) == 1.0 - 0.5 * rate + Spilled(rate, rate - 1.0, later)
  {
    var g, h := 1.5 - 0.75 * rate, 0.5 + 0.25 * rate;
    var gains := [g, h] + later;
    assert gains[1..] == [h] + later && gains[1..][1..] == later;
    assert Fill(rate, rate - 1.0, g) == h && Spend(h) == h;
    assert Fill(rate, h, h) == rate && Spend(rate) == rate - 1.0;
  }

  lemma {:induction false} CyclesSpill(rate: real, n: nat)
    requires 1.0 <= rate < 2.0
    ensures Spilled(rate, rate - 1.0, Cycles(rate, n)) == Times(n, 1.0 - 0.5 * rate)
    decreases n
  {
    if n == 0 {
      OneMore(0, 1.0 - 0.5 * rate);
    } else {
      CyclesSpill(rate, n - 1);
      OneCycle(rate, Cycles(rate, n - 1));
      OneMore(n - 1, 1.0 - 0.5 * rate);
    }
  }

  function Times(n: nat, x: real): real {
    n as real * x
  }

  lemma OneMore(n: nat, x: real)
    ensures Times(n + 1, x) == Times(n, x) + x && Times(0, x) == 0.0
  {
  }

  lemma FirstGainSpills(rate: real, later: seq<real>)
    requires 1.0 <= rate < 2.0
    ensures Spilled(rate, 1.0, [1.0] + later) >= Spilled(rate, rate - 1.0, later)
  {
    assert ([1.0] + later)[1..] == later;
    assert Fill(rate, 1.0, 1.0) == rate && Spend(rate) == rate - 1.0;
  }

  lemma SentIsShort(rate: real, start: real, clock: seq<real>, lost: real)
    requires rate >= 1.0 && Forward(start, clock) && Spilled(rate, 1.0, Gains(rate, start, clock)) >= lost
    ensures |RunOf(rate, 1.0, start, clock)| as real <= 1.0 + Gain(rate, start, LastReading(start, clock)) - lost
  {
    GainsAreNatural(rate, start, clock);
    GainsAddUp(rate, start, clock);
    Balance(rate, 1.0, Gains(rate, start, clock));
  }

  /** From 1 up to 2 a run can fall behind by any amount, although the loop turns at
      least once per interval: each of n cycles loses 1 - rate / 2 of a request. */
  lemma SlowRateFallsBehind(rate: real, start: real, n: nat) returns (clock: seq<real>)
    requires 1.0 <= rate < 2.0
    ensures Steady(start, clock, 1.0 / rate)
    ensures |RunOf(rate, 1.0, start, clock)| as real <=
            1.0 + Gain(rate, start, LastReading(start, clock)) - Times(n, 1.0 - 0.5 * rate)
  {
    var gains := [1.0] + Cycles(rate, n);
    CyclesAreAtMostOne(rate, n);
    clock := ClockOf(rate, start, gains);
    ClockBringsGains(rate, start, gains);
    SteadyGains(rate, start, clock);
    FirstGainSpills(rate, Cycles(rate, n));
    CyclesSpill(rate, n);
    SentIsShort(rate, start, clock, Times(n, 1.0 - 0.5 * rate));
  }

  lemma EnoughTimes(x: real) returns (n: nat)
    requires x > 0.0
    ensures Times(n, x) > 1.0
  {
    n := (1.0 / x).Floor + 1;
    var d := n as real - 1.0 / x;
    Inverse(x);
    MoreThanOne(1.0 / x, d, x);
  }

  lemma Inverse(x: real)
    requires x > 0.0
    ensures (1.0 / x) * x == 1.0
  {
  }

  lemma MoreThanOne(y: real, d: real, x: real)
    requires x > 0.0 && d > 0.0 && y * x == 1.0
    ensures (y + d) * x > 1.0
  {
    assert d * x > 0.0;
  }

  lemma LowRateFallsBehind(rate: real) returns (clock: seq<real>)
    requires 0.0 < rate < 1.0
    ensures Steady(0.0, clock, 1.0 / rate)
    ensures |RunOf(rate, 1.0, 0.0, clock)| as real < Gain(rate, 0.0, LastReading(0.0, clock))
  {
    clock := ClockOf(rate, 0.0, [1.0]);
    ClockBringsGains(rate, 0.0, [1.0]);
    NothingBelowOne(rate, 1.0, [1.0]);
    GainsAddUp(rate, 0.0, clock);
    TotalOfCons(1.0, []);
    assert [1.0] + [] == [1.0];
  }

  /** The promise is kept if and only if it is for two requests per second or more. */
  lemma KeepsRateIff(rate: real)
    requires rate > 0.0
    ensures KeepsRate(rate) <==> rate >= 2.0
  {
    if rate >= 2.0 {
      forall start, clock | Steady(start, clock, 1.0 / rate) ensures OnSchedule(rate, start, clock) {
        SteadyRate(rate, start, clock);
      }
    } else {
      var clock;
      if rate < 1.0 {
        clock := LowRateFallsBehind(rate);
      } else {
        var n := EnoughTimes(1.0 - 0.5 * rate);
        clock := SlowRateFallsBehind(rate, 0.0, n);
      }
      assert !OnSchedule(rate, 0.0, clock);
    }
  }

  lemma {:induction false} NothingBelowOne(rate: real, tokens: real, gains: seq<real>)
    requires rate < 1.0
    ensures Sent(rate, tokens, gains) == 0
    decreases |gains|
  {
    if gains != [] {
      NothingBelowOne(rate, Spend(Fill(rate, tokens, gains[0])), gains[1..]);
    }
  }

  /** A run that gets into its loop dispatches something if and only if the rate is
      at least one per second: below that, the cap keeps the bucket short of a
      whole token for ever. */
  lemma DispatchesIffRateAtLeastOne(rate: real, first: real, clock: seq<real>)
    requires rate > 0.0 && clock != [] && Forward(first, clock)
    ensures RunOf(rate, 1.0, first, clock) != [] <==> rate >= 1.0
  {
    if rate < 1.0 {
      NothingBelowOne(rate, 1.0, Gains(rate, first, clock));
    } else {
      GainIsNatural(rate, first, clock[0]);
    }
  }
}
