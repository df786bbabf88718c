/** The two rate limiters of a session: a token bucket over real arithmetic and a fixed-window counter. */
module RateLimit {

  // ---- Token bucket ----

  datatype Bucket = Bucket(tokens: real, lastRefillAt: int)

  function Min(a: real, b: real): real {
    if a <= b then a else b
  }

  function Forward(from: int, to: int): int {
    if to >= from then to - from else 0
  }

  /** What `elapsed` milliseconds refill. */
  function Refill(rate: real, elapsed: int): real {
    elapsed as real / 1000.0 * rate
  }

  function Filled(b: Bucket, rate: real, capacity: real, now: int): real {
    Min(capacity, b.tokens + Refill(rate, Forward(b.lastRefillAt, now)))
  }

  function ConsumeBucket(b: Bucket, rate: real, capacity: real, now: int): (Bucket, bool) {
    var tokens := Filled(b, rate, capacity, now);
    if tokens < 1.0 then (Bucket(tokens, now), false) else (Bucket(tokens - 1.0, now), true)
  }

  class TokenBucket {
    var tokens: real
    var lastRefillAt: int

    function View(): Bucket
      reads this
    {
      Bucket(tokens, lastRefillAt)
    }

    constructor (capacity: real, now: int)
      ensures View() == Bucket(capacity, now)
    {
      tokens, lastRefillAt := capacity, now;
    }

    method Consume(refillPerSecond: real, capacity: real, now: int) returns (granted: bool)
      modifies this
      ensures (View(), granted) == ConsumeBucket(old(View()), refillPerSecond, capacity, now)
    {
      var elapsed := if now - lastRefillAt > 0 then now - lastRefillAt else 0;
      var refill := elapsed as real / 1000.0 * refillPerSecond;
      tokens := if capacity <= tokens + refill then capacity else tokens + refill;
      lastRefillAt := now;
      if tokens < 1.0 {
        return false;
      }
      tokens := tokens - 1.0;
      return true;
    }
  }

  function After(b: Bucket, rate: real, capacity: real, times: seq<int>): Bucket
    decreases |times|
  {
    if times == [] then b else After(ConsumeBucket(b, rate, capacity, times[0]).0, rate, capacity, times[1..])
  }

  function Grants(b: Bucket, rate: real, capacity: real, times: seq<int>): nat
    decreases |times|
  {
    if times == [] then 0
    else
      var (b1, granted) := ConsumeBucket(b, rate, capacity, times[0]);
      (if granted then 1 else 0) + Grants(b1, rate, capacity, times[1..])
  }

  /** Milliseconds the clock ran forward over the calls; steps back count for nothing. */
  function ForwardTime(from: int, times: seq<int>): nat
    decreases |times|
  {
    if times == [] then 0 else Forward(from, times[0]) + ForwardTime(times[0], times[1..])
  }

  predicate InRange(b: Bucket, capacity: real) {
    0.0 <= b.tokens <= capacity
  }

  lemma RefillAdds(rate: real, a: int, b: int)
    ensures Refill(rate, a + b) == Refill(rate, a) + Refill(rate, b)
  {
    assert (a + b) as real == a as real + b as real;
  }

  lemma RefillNonNegative(rate: real, elapsed: int)
    requires rate >= 0.0 && elapsed >= 0
    ensures Refill(rate, elapsed) >= 0.0
  {
  }

  lemma {:induction false} TokensStayInRange(b: Bucket, rate: real, capacity: real, times: seq<int>)
    requires InRange(b, capacity) && rate >= 0.0
    ensures InRange(After(b, rate, capacity, times), capacity)
    decreases |times|
  {
    if times != [] {
      RefillNonNegative(rate, Forward(b.lastRefillAt, times[0]));
      TokensStayInRange(ConsumeBucket(b, rate, capacity, times[0]).0, rate, capacity, times[1..]);
    }
  }

  /** Grants are paid for by the tokens at hand and by what flowed in, for any clock at all. */
  lemma {:induction false} GrantsArePaidFor(b: Bucket, rate: real, capacity: real, times: seq<int>)
    requires InRange(b, capacity) && rate >= 0.0
    ensures Grants(b, rate, capacity, times) as real + After(b, rate, capacity, times).tokens
            <= b.tokens + Refill(rate, ForwardTime(b.lastRefillAt, times))
    decreases |times|
  {
    if times != [] {
      var f := Forward(b.lastRefillAt, times[0]);
      RefillNonNegative(rate, f);
      var b1 := ConsumeBucket(b, rate, capacity, times[0]).0;
      GrantsArePaidFor(b1, rate, capacity, times[1..]);
      RefillAdds(rate, f, ForwardTime(times[0], times[1..]));
      hide Refill;
    }
  }

  predicate NonDecreasing(times: seq<int>) {
    forall i, j | 0 <= i < j < |times| :: times[i] <= times[j]
  }

  lemma {:induction false} ForwardTimeIsElapsed(from: int, times: seq<int>)
    requires NonDecreasing([from] + times)
    ensures ForwardTime(from, times) == if times == [] then 0 else times[|times| - 1] - from
    decreases |times|
  {
    if times != [] {
      assert ([from] + times)[0] <= ([from] + times)[1];
      assert [times[0]] + times[1..] == times;
      forall i, j | 0 <= i < j < |times|
        ensures times[i] <= times[j]
      {
        assert ([from] + times)[i + 1] <= ([from] + times)[j + 1];
      }
      ForwardTimeIsElapsed(times[0], times[1..]);
    }
  }

  /** From any bucket in range, the calls `first, rest...` are granted at most the capacity plus what the time
      between the first and the last of them refills. */
  lemma BucketBoundsAnyStretch(b: Bucket, rate: real, capacity: real, first: int, rest: seq<int>)
    requires InRange(b, capacity) && rate >= 0.0 && NonDecreasing([first] + rest)
    ensures Grants(b, rate, capacity, [first] + rest) as real
            <= capacity + Refill(rate, if rest == [] then 0 else rest[|rest| - 1] - first)
    ensures InRange(After(b, rate, capacity, [first] + rest), capacity)
  {
    TokensStayInRange(b, rate, capacity, [first] + rest);
    var (b1, granted) := ConsumeBucket(b, rate, capacity, first);
    RefillNonNegative(rate, Forward(b.lastRefillAt, first));
    GrantsArePaidFor(b1, rate, capacity, rest);
    TokensStayInRange(b1, rate, capacity, rest);
    ForwardTimeIsElapsed(first, rest);
    assert ([first] + rest)[1..] == rest;
    hide Refill;
  }

  /** Every gap is long enough to refill a whole token. */
  predicate Steady(last: int, rate: real, times: seq<int>)
    decreases |times|
  {
    times == [] || (Refill(rate, Forward(last, times[0])) >= 1.0 && Steady(times[0], rate, times[1..]))
  }

  /** A caller that waits for a whole token between its calls is never refused. */
  lemma {:induction false} SteadyCallerIsNeverRefused(b: Bucket, rate: real, capacity: real, times: seq<int>)
    requires InRange(b, capacity) && capacity >= 1.0 && Steady(b.lastRefillAt, rate, times)
    ensures Grants(b, rate, capacity, times) == |times|
    decreases |times|
  {
    if times != [] {
      var (b1, granted) := ConsumeBucket(b, rate, capacity, times[0]);
      assert granted;
      hide Refill;
      SteadyCallerIsNeverRefused(b1, rate, capacity, times[1..]);
    }
  }

  /** A bucket holding that many tokens grants as many calls in a row, however close together: a full one a burst of
      its capacity. */
  lemma {:induction false} TokensAreSpentOneByOne(b: Bucket, rate: real, capacity: real, times: seq<int>)
    requires InRange(b, capacity) && rate >= 0.0 && |times| as real <= b.tokens
    ensures Grants(b, rate, capacity, times) == |times|
    decreases |times|
  {
    if times != [] {
      RefillNonNegative(rate, Forward(b.lastRefillAt, times[0]));
      hide Refill;
      TokensAreSpentOneByOne(ConsumeBucket(b, rate, capacity, times[0]).0, rate, capacity, times[1..]);
    }
  }

  /** What the stretch from call `j` up to a call at `at` still allows: the capacity and what flowed in since `j`, less
      what was granted since `j`. */
  function Allowance(b: Bucket, rate: real, capacity: real, times: seq<int>, at: int, j: nat): real
    requires j <= |times|
  {
    capacity + Refill(rate, ForwardTime((times + [at])[j], (times + [at])[j + 1..]))
    - Grants(After(b, rate, capacity, times[..j]), rate, capacity, times[j..]) as real
  }

  /** The same, counted from the bucket's own tokens. */
  function OwnAllowance(b: Bucket, rate: real, capacity: real, times: seq<int>, at: int): real {
    b.tokens + Refill(rate, ForwardTime(b.lastRefillAt, times + [at])) - Grants(b, rate, capacity, times) as real
  }

  lemma AllowanceLater(b: Bucket, rate: real, capacity: real, times: seq<int>, at: int, j: nat)
    requires j < |times|
    ensures Allowance(b, rate, capacity, times, at, j + 1) ==
            Allowance(ConsumeBucket(b, rate, capacity, times[0]).0, rate, capacity, times[1..], at, j)
  {
    assert (times + [at])[j + 2..] == (times[1..] + [at])[j + 1..];
    assert times[..j + 1][1..] == times[1..][..j] && times[j + 1..] == times[1..][j..];
  }

  /** The tokens a call finds are what the tightest stretch up to it allows. */
  lemma {:induction false} TightestStretchDecides(b: Bucket, rate: real, capacity: real, times: seq<int>, at: int)
    ensures var level := Filled(After(b, rate, capacity, times), rate, capacity, at);
            && level <= OwnAllowance(b, rate, capacity, times, at)
            && (forall j: nat | j <= |times| :: level <= Allowance(b, rate, capacity, times, at, j))
            && (level == OwnAllowance(b, rate, capacity, times, at)
                || exists j: nat | j <= |times| :: level == Allowance(b, rate, capacity, times, at, j))
    decreases |times|
  {
    if times == [] {
      EmptyStretch(b, rate, capacity, at);
    } else {
      FirstStretch(b, rate, capacity, times, at);
      var b1, rest := ConsumeBucket(b, rate, capacity, times[0]).0, times[1..];
      TightestStretchDecides(b1, rate, capacity, rest, at);
      var level := Filled(After(b, rate, capacity, times), rate, capacity, at);
      assert level == Filled(After(b1, rate, capacity, rest), rate, capacity, at);
      hide Filled, ConsumeBucket, Allowance, OwnAllowance, After;
      forall j: nat | j <= |times|
        ensures level <= Allowance(b, rate, capacity, times, at, j)
      {
        if j > 0 { AllowanceLater(b, rate, capacity, times, at, j - 1); }
      }
      if k: nat :| k <= |rest| && level == Allowance(b1, rate, capacity, rest, at, k) {
        AllowanceLater(b, rate, capacity, times, at, k);
        assert level == Allowance(b, rate, capacity, times, at, k + 1);
      } else {
        assert level == OwnAllowance(b, rate, capacity, times, at) || level == Allowance(b, rate, capacity, times, at, 0);
      }
    }
  }

  lemma EmptyStretch(b: Bucket, rate: real, capacity: real, at: int)
    ensures Allowance(b, rate, capacity, [], at, 0) == capacity
    ensures OwnAllowance(b, rate, capacity, [], at) == b.tokens + Refill(rate, Forward(b.lastRefillAt, at))
  {
    assert [] + [at] == [at] && [at][1..] == [];
    assert ForwardTime(at, []) == 0;
    assert ForwardTime(b.lastRefillAt, [at]) == Forward(b.lastRefillAt, at) + ForwardTime(at, [at][1..]);
  }

  lemma FirstStretch(b: Bucket, rate: real, capacity: real, times: seq<int>, at: int)
    requires times != []
    ensures var later := OwnAllowance(ConsumeBucket(b, rate, capacity, times[0]).0, rate, capacity, times[1..], at);
            later == Min(Allowance(b, rate, capacity, times, at, 0), OwnAllowance(b, rate, capacity, times, at))
  {
    var all := times + [at];
    assert all[0] == times[0] && all[1..] == times[1..] + [at] && times[..0] == [] && times[0..] == times;
    RefillAdds(rate, Forward(b.lastRefillAt, times[0]), ForwardTime(times[0], all[1..]));
    hide Refill;
  }

  lemma LevelDecides(b: Bucket, rate: real, capacity: real, at: int)
    ensures ConsumeBucket(b, rate, capacity, at).1 <==> Filled(b, rate, capacity, at) >= 1.0
  {
  }

  lemma FullMeansNoLess(b: Bucket, rate: real, capacity: real, times: seq<int>, at: int)
    requires b.tokens == capacity && rate >= 0.0
    ensures OwnAllowance(b, rate, capacity, times, at) >= Allowance(b, rate, capacity, times, at, 0)
  {
    var all := times + [at];
    var first, rest := Forward(b.lastRefillAt, all[0]), ForwardTime(all[0], all[1..]);
    RefillNonNegative(rate, first);
    hide Refill;
    RefillAdds(rate, first, rest);
    assert times[..0] == [] && times[0..] == times;
  }

  /** A second refills as many tokens as the rate says, and time adds up. */
  lemma RateIsPerSecond(rate: real, seconds: int, a: int, b: int)
    ensures Refill(rate, 1000 * seconds) == seconds as real * rate
    ensures Refill(rate, a + b) == Refill(rate, a) + Refill(rate, b)
  {
    assert (1000 * seconds) as real == 1000.0 * seconds as real;
    RefillAdds(rate, a, b);
  }

  /** A call on a bucket that started full is refused exactly when granting it would take some stretch of calls that
      ends with it past its due: the capacity, and the rate for every second the clock ran forward over the stretch. */
  lemma RefusedIffAStretchIsSpent(created: int, rate: real, capacity: real, times: seq<int>, at: int)
    requires rate >= 0.0
    ensures var b := Bucket(capacity, created);
            !ConsumeBucket(After(b, rate, capacity, times), rate, capacity, at).1 <==>
              exists j: nat | j <= |times| :: Allowance(b, rate, capacity, times, at, j) < 1.0
  {
    TightestStretchDecides(Bucket(capacity, created), rate, capacity, times, at);
    FullMeansNoLess(Bucket(capacity, created), rate, capacity, times, at);
    hide Allowance, OwnAllowance, Refill, After, Filled;
    LevelDecides(After(Bucket(capacity, created), rate, capacity, times), rate, capacity, at);
  }

  // ---- Fixed window ----

  datatype Counter = Counter(windowStart: int, count: int)

  function Rolled(c: Counter, window: int, now: int): Counter {
    if now - c.windowStart >= window then Counter(now, 0) else c
  }

  function ConsumeWindow(c: Counter, limit: int, window: int, now: int): (Counter, bool) {
    var r := Rolled(c, window, now);
    if r.count >= limit then (r, false) else (r.(count := r.count + 1), true)
  }

  class WindowCounter {
    var windowStart: int
    var count: int

    function View(): Counter
      reads this
    {
      Counter(windowStart, count)
    }

    constructor (now: int)
      ensures View() == Counter(now, 0)
    {
      windowStart, count := now, 0;
    }

    method Consume(limit: int, windowMs: int, now: int) returns (granted: bool)
      modifies this
      ensures (View(), granted) == ConsumeWindow(old(View()), limit, windowMs, now)
    {
      if now - windowStart >= windowMs {
        windowStart := now;
        count := 0;
      }
      if count >= limit {
        return false;
      }
      count := count + 1;
      return true;
    }
  }

  function CounterAfter(c: Counter, limit: int, window: int, times: seq<int>): Counter
    decreases |times|
  {
    if times == [] then c
    else ConsumeWindow(CounterAfter(c, limit, window, times[..|times| - 1]), limit, window, times[|times| - 1]).0
  }

  /** A granted call and the counter window that granted it. */
  datatype Grant = Grant(at: int, windowStart: int)

  function Granted(c: Counter, limit: int, window: int, times: seq<int>): seq<Grant>
    decreases |times|
  {
    if times == [] then []
    else
      var before := times[..|times| - 1];
      var (c1, ok) := ConsumeWindow(CounterAfter(c, limit, window, before), limit, window, times[|times| - 1]);
      Granted(c, limit, window, before) + if ok then [Grant(times[|times| - 1], c1.windowStart)] else []
  }

  function ByStart(gs: seq<Grant>, start: int): set<nat> {
    set i: nat | i < |gs| && gs[i].windowStart == start
  }

  function InWindow(gs: seq<Grant>, from: int, window: int): set<nat> {
    set i: nat | i < |gs| && from <= gs[i].at < from + window
  }

  /** Counter windows do not overlap, hold their own grants, and each grants at most the limit. */
  ghost predicate WindowsInv(c: Counter, gs: seq<Grant>, limit: nat, window: int, now: int) {
    && c.windowStart <= now
    && 0 <= c.count <= limit
    && |ByStart(gs, c.windowStart)| == c.count
    && (forall start :: |ByStart(gs, start)| <= limit)
    && (forall i | 0 <= i < |gs| :: gs[i].windowStart <= gs[i].at < gs[i].windowStart + window && gs[i].at <= now)
    && (forall i | 0 <= i < |gs| :: gs[i].windowStart == c.windowStart || gs[i].windowStart + window <= c.windowStart)
    && (forall i, j | 0 <= i < j < |gs| ::
          gs[i].windowStart == gs[j].windowStart || gs[i].windowStart + window <= gs[j].windowStart)
  }

  lemma ByStartSnoc(gs: seq<Grant>, g: Grant, start: int)
    ensures ByStart(gs + [g], start) == ByStart(gs, start) + if g.windowStart == start then {|gs|} else {}
    ensures |ByStart(gs + [g], start)| == |ByStart(gs, start)| + if g.windowStart == start then 1 else 0
  {
    assert ByStart(gs + [g], start) == ByStart(gs, start) + if g.windowStart == start then {|gs|} else {};
  }

  lemma RollKeeps(c: Counter, gs: seq<Grant>, limit: nat, window: int, now: int, at: int)
    requires WindowsInv(c, gs, limit, window, now) && window > 0 && now <= at
    ensures WindowsInv(Rolled(c, window, at), gs, limit, window, at)
  {
    if at - c.windowStart >= window {
      assert ByStart(gs, at) == {};
    }
    hide ByStart;
  }

  lemma CountsGrow(gs: seq<Grant>, g: Grant)
    ensures forall start :: |ByStart(gs + [g], start)| == |ByStart(gs, start)| + if g.windowStart == start then 1 else 0
  {
    forall start
      ensures |ByStart(gs + [g], start)| == |ByStart(gs, start)| + if g.windowStart == start then 1 else 0
    {
      ByStartSnoc(gs, g, start);
    }
  }

  lemma GrantKeeps(c: Counter, gs: seq<Grant>, limit: nat, window: int, at: int)
    requires WindowsInv(c, gs, limit, window, at) && at < c.windowStart + window && c.count < limit
    ensures WindowsInv(c.(count := c.count + 1), gs + [Grant(at, c.windowStart)], limit, window, at)
  {
    CountsGrow(gs, Grant(at, c.windowStart));
    hide ByStart;
  }

  lemma ConsumeKeeps(c: Counter, gs: seq<Grant>, limit: nat, window: int, now: int, at: int)
    requires WindowsInv(c, gs, limit, window, now) && window > 0 && now <= at
    ensures var (c1, ok) := ConsumeWindow(c, limit, window, at);
            WindowsInv(c1, gs + if ok then [Grant(at, c1.windowStart)] else [], limit, window, at)
  {
    RollKeeps(c, gs, limit, window, now, at);
    var r := Rolled(c, window, at);
    assert at < r.windowStart + window;
    hide WindowsInv, Rolled;
    if r.count < limit {
      GrantKeeps(r, gs, limit, window, at);
    } else {
      assert gs + [] == gs;
    }
  }

  lemma {:induction false} WindowsRun(created: int, limit: nat, window: int, times: seq<int>)
    requires window > 0 && NonDecreasing([created] + times)
    ensures WindowsInv(CounterAfter(Counter(created, 0), limit, window, times),
                       Granted(Counter(created, 0), limit, window, times), limit, window,
                       ([created] + times)[|times|])
    decreases |times|
  {
    if times == [] {
      assert forall start :: ByStart([], start) == {};
    } else {
      var before := times[..|times| - 1];
      assert [created] + before == ([created] + times)[..|times|];
      WindowsRun(created, limit, window, before);
      var at := times[|times| - 1];
      assert ([created] + times)[|times|] == at;
      ConsumeKeeps(CounterAfter(Counter(created, 0), limit, window, before), Granted(Counter(created, 0), limit, window, before),
                   limit, window, ([created] + before)[|before|], at);
      hide WindowsInv, ConsumeWindow;
    }
  }

  lemma UnionBound(s: set<nat>, a: set<nat>, b: set<nat>)
    requires s <= a + b
    ensures |s| <= |a| + |b|
  {
    assert |a + b| == |a| + |b - a| by {
      assert a + b == a + (b - a);
    }
    assert |b| == |b - a| + |b * a| by {
      assert b == (b - a) + (b * a);
    }
    assert a + b == s + ((a + b) - s);
  }

  lemma NoThirdWindow(c: Counter, gs: seq<Grant>, limit: nat, window: int, now: int, from: int, i: nat, j: nat, k: nat)
    requires WindowsInv(c, gs, limit, window, now) && window > 0
    requires i in InWindow(gs, from, window) && j in InWindow(gs, from, window) && k in InWindow(gs, from, window)
    requires gs[i].windowStart != gs[j].windowStart
    ensures gs[k].windowStart == gs[i].windowStart || gs[k].windowStart == gs[j].windowStart
  {
    hide ByStart;
  }

  /** A half-open stretch as long as the window meets at most two counter windows. */
  lemma TwoCounterWindows(c: Counter, gs: seq<Grant>, limit: nat, window: int, now: int, from: int)
    requires WindowsInv(c, gs, limit, window, now) && window > 0
    ensures |InWindow(gs, from, window)| <= 2 * limit
  {
    var s := InWindow(gs, from, window);
    assert forall start :: |ByStart(gs, start)| <= limit;
    hide WindowsInv;
    if s != {} {
      var i :| i in s;
      var early := ByStart(gs, gs[i].windowStart);
      if j :| j in s && gs[j].windowStart != gs[i].windowStart {
        var late := ByStart(gs, gs[j].windowStart);
        forall k <- s
          ensures k in early + late
        {
          NoThirdWindow(c, gs, limit, window, now, from, i, j, k);
        }
        UnionBound(s, early, late);
      } else {
        assert s <= early + {};
        UnionBound(s, early, {});
      }
    }
  }

  /** With a clock that does not go backwards, the fixed window grants at most twice its limit in any half-open
      stretch of its own length. */
  lemma FixedWindowBound(created: int, limit: nat, window: int, times: seq<int>, from: int)
    requires window > 0 && NonDecreasing([created] + times)
    ensures |InWindow(Granted(Counter(created, 0), limit, window, times), from, window)| <= 2 * limit
  {
    WindowsRun(created, limit, window, times);
    TwoCounterWindows(CounterAfter(Counter(created, 0), limit, window, times), Granted(Counter(created, 0), limit, window, times),
                      limit, window, ([created] + times)[|times|], from);
  }

  /** The grants since `start`. */
  function Since(gs: seq<Grant>, start: int): set<nat> {
    set i: nat | i < |gs| && gs[i].at >= start
  }

  lemma RefusedIffFull(c: Counter, gs: seq<Grant>, limit: nat, window: int, now: int, at: int)
    requires WindowsInv(c, gs, limit, window, now) && window > 0 && now <= at
    ensures var start := Rolled(c, window, at).windowStart;
            !ConsumeWindow(c, limit, window, at).1 <==> |Since(gs, start)| == limit
    ensures |Since(gs, Rolled(c, window, at).windowStart)| <= limit
  {
    RollKeeps(c, gs, limit, window, now, at);
    var r := Rolled(c, window, at);
    assert Since(gs, r.windowStart) == ByStart(gs, r.windowStart);
    hide ByStart, Since;
  }

  /** A call is refused exactly when the full limit was granted since the counter window it falls into began; that
      window begins at the call itself where the last one has run out. */
  lemma RefusedIffLimitGranted(created: int, limit: nat, window: int, times: seq<int>, at: int)
    requires window > 0 && NonDecreasing([created] + times + [at])
    ensures var c := CounterAfter(Counter(created, 0), limit, window, times);
            var start := if at - c.windowStart >= window then at else c.windowStart;
            !ConsumeWindow(c, limit, window, at).1 <==>
              |Since(Granted(Counter(created, 0), limit, window, times), start)| == limit
    ensures var c := CounterAfter(Counter(created, 0), limit, window, times);
            ConsumeWindow(c, limit, window, at).0.windowStart == if at - c.windowStart >= window then at else c.windowStart
  {
    var all := [created] + times + [at];
    forall i, j | 0 <= i < j < |[created] + times|
      ensures ([created] + times)[i] <= ([created] + times)[j]
    {
      assert all[i] <= all[j];
    }
    WindowsRun(created, limit, window, times);
    assert all[|times|] == ([created] + times)[|times|] <= all[|times| + 1] == at;
    RefusedIffFull(CounterAfter(Counter(created, 0), limit, window, times), Granted(Counter(created, 0), limit, window, times),
                   limit, window, ([created] + times)[|times|], at);
    hide WindowsInv, Since;
  }
}
