/**
 The token bucket in front of every REST call (bot/exchange/rate_limit.py).

 The asyncio lock serialises `acquire`, and nothing is awaited between a refill and the
 test that follows it, so a run of the bucket is a sequence of atomic steps: a poll
 (refill, then take `n` if there are enough tokens) or a snapshot (refill only). Several
 callers, their sleeps and the diagnostic snapshots may interleave in any way.
 */
module RateLimit {
  import opened Common

  /** Configuration and contents of a bucket; times are monotonic-clock seconds. */
  datatype Bucket = Bucket(rate: real, capacity: real, tokens: real, lastRefill: real) {
    predicate Valid() {
      0.0 < rate && 0.0 < capacity && 0.0 <= tokens <= capacity
    }

    function Refill(now: real): Bucket {
      if now - lastRefill > 0.0
      then this.(tokens := Min(capacity, tokens + (now - lastRefill) * rate), lastRefill := now)
      else this
    }
  }

  datatype Step = Poll(at: real, n: real) | Snapshot(at: real)

  predicate Grants(b: Bucket, step: Step) {
    step.Poll? && b.Refill(step.at).tokens >= step.n
  }

  function Apply(b: Bucket, step: Step): Bucket {
    var r := b.Refill(step.at);
    if Grants(b, step) then r.(tokens := r.tokens - step.n) else r
  }

  function Granted(b: Bucket, step: Step): real {
    if Grants(b, step) then step.n else 0.0
  }

  /** A run: the bucket before each step and after the last one, and what each step granted. */
  datatype Run = Run(states: seq<Bucket>, steps: seq<Step>, granted: seq<real>) {
    /** The steps come from a monotonic clock, and `acquire` refuses n <= 0 and n > capacity. */
    ghost predicate StepOk(k: nat)
      requires k < |steps| == |granted| && |states| == |steps| + 1
    {
      && states[k + 1] == Apply(states[k], steps[k])
      && granted[k] == Granted(states[k], steps[k])
      && (if k == 0 then states[0].lastRefill else steps[k - 1].at) <= steps[k].at
      && (steps[k].Poll? ==> 0.0 < steps[k].n <= states[0].capacity)
    }

    ghost predicate Legal() {
      && |granted| == |steps|
      && |states| == |steps| + 1
      && states[0].Valid()
      && forall k: nat :: k < |steps| ==> StepOk(k)
    }
  }

  /** Tokens handed out by the steps i, i+1, ..., j-1. */
  function GrantedIn(granted: seq<real>, i: nat, j: nat): real
    requires i <= j <= |granted|
  {
    if i == j then 0.0 else GrantedIn(granted, i, j - 1) + granted[j - 1]
  }

  lemma {:induction false} RefillBounded(b: Bucket, now: real)
    requires b.Valid()
    ensures b.Refill(now).Valid()
    ensures b.Refill(now).tokens >= b.tokens
    ensures b.lastRefill <= now ==>
              && b.Refill(now).lastRefill == now
              && b.Refill(now).tokens <= b.tokens + (now - b.lastRefill) * b.rate
  {
    var gain := (now - b.lastRefill) * b.rate;
    if now - b.lastRefill > 0.0 {
      MulMono(0.0, now - b.lastRefill, b.rate);
      assert gain >= 0.0;
      assert b.Refill(now).tokens == Min(b.capacity, b.tokens + gain);
    } else if now == b.lastRefill {
      assert gain == 0.0;
    }
  }

  /** In every run the token count stays in [0, capacity] and the refill time follows the clock. */
  lemma {:induction false} TokensStayInRange(run: Run, k: nat)
    requires run.Legal() && k <= |run.steps|
    ensures run.states[k].Valid()
    ensures run.states[k].rate == run.states[0].rate && run.states[k].capacity == run.states[0].capacity
    ensures k > 0 ==> run.states[k].lastRefill == run.steps[k - 1].at
  {
    if k > 0 {
      TokensStayInRange(run, k - 1);
      assert run.StepOk(k - 1);
      RefillBounded(run.states[k - 1], run.steps[k - 1].at);
    }
  }

  /** What one step grants comes out of the tokens it found and the refill since `t0`. */
  lemma StepPotential(p: Bucket, step: Step, t0: real, t1: real, rate: real, capacity: real)
    requires p.Valid() && p.lastRefill == t0 <= step.at == t1 && p.rate == rate && p.capacity == capacity
    ensures Granted(p, step) + Apply(p, step).tokens <= p.tokens + (t1 - t0) * rate
  {
    RefillBounded(p, step.at);
  }

  /** And it never exceeds the capacity. */
  lemma StepWithin(p: Bucket, step: Step, capacity: real)
    requires p.Valid() && p.capacity == capacity
    ensures Granted(p, step) + Apply(p, step).tokens <= capacity
  {
    RefillBounded(p, step.at);
  }

  lemma NoTime(rate: real, t0: real, t: real)
    requires t == t0
    ensures rate * (t - t0) == 0.0
  {
  }

  lemma Chain(g0: real, left0: real, g1: real, left1: real, capacity: real, rate: real, t0: real, t1: real, t2: real)
    requires g0 + left0 <= capacity + rate * (t1 - t0)
    requires g1 + left1 <= left0 + (t2 - t1) * rate
    ensures g0 + g1 + left1 <= capacity + rate * (t2 - t0)
  {
  }

  /** What the steps i..j-1 granted plus what is left is covered by the capacity and the refill. */
  lemma {:induction false} Potential(run: Run, i: nat, j: nat, rate: real, capacity: real, t0: real, t2: real)
    requires run.Legal() && i < j <= |run.steps|
    requires rate == run.states[0].rate && capacity == run.states[0].capacity
    requires t0 == run.steps[i].at && t2 == run.steps[j - 1].at
    ensures GrantedIn(run.granted, i, j) + run.states[j].tokens <= capacity + rate * (t2 - t0)
  {
    var p, step := run.states[j - 1], run.steps[j - 1];
    TokensStayInRange(run, j - 1);
    assert run.StepOk(j - 1);
    hide Granted, Apply;
    if j - 1 == i {
      StepWithin(p, step, capacity);
      assert GrantedIn(run.granted, i, i) == 0.0;
      NoTime(rate, t0, t2);
    } else {
      var t1 := run.steps[j - 2].at;
      StepPotential(p, step, t1, t2, rate, capacity);
      Potential(run, i, j - 1, rate, capacity, t0, t1);
      Chain(GrantedIn(run.granted, i, j - 1), p.tokens, run.granted[j - 1], run.states[j].tokens,
            capacity, rate, t0, t1, t2);
    }
  }

  /** The windowed rate bound: between any two steps of any run, inclusive, no more than
      capacity + rate * elapsed tokens are granted. */
  lemma WindowBound(run: Run, i: nat, j: nat)
    requires run.Legal() && i < j <= |run.steps|
    ensures GrantedIn(run.granted, i, j)
            <= run.states[0].capacity + run.states[0].rate * (run.steps[j - 1].at - run.steps[i].at)
  {
    Potential(run, i, j, run.states[0].rate, run.states[0].capacity, run.steps[i].at, run.steps[j - 1].at);
    TokensStayInRange(run, j);
  }

  // ------------------------------------------------------------------ tightness

  function Extend(run: Run, step: Step): Run
    requires |run.states| > 0
  {
    var last := run.states[|run.states| - 1];
    Run(run.states + [Apply(last, step)], run.steps + [step], run.granted + [Granted(last, step)])
  }

  lemma ExtendLegal(run: Run, step: Step)
    requires run.Legal()
    requires (if |run.steps| == 0 then run.states[0].lastRefill else run.steps[|run.steps| - 1].at) <= step.at
    requires step.Poll? ==> 0.0 < step.n <= run.states[0].capacity
    ensures Extend(run, step).Legal()
  {
    var e := Extend(run, step);
    forall k: nat | k < |e.steps| ensures e.StepOk(k) {
      if k < |run.steps| {
        assert run.StepOk(k);
      }
    }
  }

  lemma {:induction false} GrantedInAppend(granted: seq<real>, more: seq<real>, i: nat, j: nat)
    requires i <= j <= |granted|
    ensures GrantedIn(granted + more, i, j) == GrantedIn(granted, i, j)
  {
    if i < j {
      GrantedInAppend(granted, more, i, j - 1);
    }
  }

  /** An empty bucket that waited `gap` seconds pays out exactly the refill. */
  lemma RefillPaysOut(b: Bucket, t: real, gap: real, amount: real)
    requires b.Valid() && 0.0 < gap && amount == gap * b.rate <= b.capacity
    ensures var p := b.(tokens := 0.0, lastRefill := t);
            && Granted(p, Poll(t + gap, amount)) == amount
            && Apply(p, Poll(t + gap, amount)) == b.(tokens := 0.0, lastRefill := t + gap)
  {
    var p := b.(tokens := 0.0, lastRefill := t);
    assert p.Refill(t + gap).tokens == Min(b.capacity, gap * b.rate);
  }

  /** Take everything from a full bucket, then all the refilled tokens at each of `m` polls. */
  lemma {:induction false} Burst(b: Bucket, gap: real, amount: real, m: nat) returns (run: Run)
    requires b.Valid() && b.tokens == b.capacity
    requires 0.0 < gap && 0.0 < amount == gap * b.rate <= b.capacity
    ensures run.Legal() && run.states[0] == b && |run.steps| == m + 1
    ensures run.steps[0].at == b.lastRefill && run.steps[m].at == b.lastRefill + (m as real) * gap
    ensures run.states[m + 1] == b.(tokens := 0.0, lastRefill := run.steps[m].at)
    ensures GrantedIn(run.granted, 0, m + 1) == b.capacity + (m as real) * amount
  {
    if m == 0 {
      var empty := Run([b], [], []);
      ExtendLegal(empty, Poll(b.lastRefill, b.capacity));
      run := Extend(empty, Poll(b.lastRefill, b.capacity));
      assert GrantedIn(run.granted, 0, 0) == 0.0;
    } else {
      var shorter := Burst(b, gap, amount, m - 1);
      var t := shorter.steps[m - 1].at;
      var step := Poll(t + gap, amount);
      ExtendLegal(shorter, step);
      RefillPaysOut(b, t, gap, amount);
      run := Extend(shorter, step);
      GrantedInAppend(shorter.granted, [amount], 0, m);
      OneMore((m - 1) as real, gap);
      OneMore((m - 1) as real, amount);
      assert m as real == (m - 1) as real + 1.0;
    }
  }

  /** `limit` tokens per `window` seconds is respected by every run of the bucket. */
  ghost predicate Enforces(b: Bucket, limit: real, window: real) {
    forall run: Run, i: nat, j: nat ::
      run.Legal() && run.states[0] == b && i < j <= |run.steps| && run.steps[j - 1].at - run.steps[i].at <= window
      ==> GrantedIn(run.granted, i, j) <= limit
  }

  lemma SplitWindow(rate: real, capacity: real, window: real) returns (m: nat)
    requires 0.0 < rate && 0.0 < capacity && 0.0 < window
    ensures m > 0 && rate * (window / (m as real)) <= capacity
  {
    MulMono(0.0, rate, window);
    var q := rate * window / capacity;
    m := q.Floor + 1;
    var r := m as real;
    MulMono(q, r, capacity);
    assert rate * window <= r * capacity;
    assert rate * (window / r) == (rate * window) / r;
    DivLe(rate * window, r, capacity);
  }

  lemma DivLe(a: real, r: real, c: real)
    requires 0.0 < r && a <= r * c
    ensures a / r <= c
  {
    var q := a / r;
    assert q * r == a;
    assert (c - q) * r >= 0.0;
  }

  /** A full bucket has a run that gets all of capacity + rate * window out of one window. */
  lemma AllowanceIsReached(b: Bucket, window: real) returns (run: Run)
    requires b.Valid() && b.tokens == b.capacity && 0.0 < window
    ensures run.Legal() && run.states[0] == b && |run.steps| > 0
    ensures run.steps[|run.steps| - 1].at - run.steps[0].at == window
    ensures GrantedIn(run.granted, 0, |run.steps|) == b.capacity + b.rate * window
  {
    var m := SplitWindow(b.rate, b.capacity, window);
    var gap, amount := Slices(b.rate, b.capacity, window, m);
    run := Burst(b, gap, amount, m);
  }

  lemma Slices(rate: real, capacity: real, window: real, m: nat) returns (gap: real, amount: real)
    requires m > 0 && 0.0 < window && 0.0 < rate && rate * (window / (m as real)) <= capacity
    ensures 0.0 < gap && 0.0 < amount == gap * rate <= capacity
    ensures (m as real) * gap == window && (m as real) * amount == rate * window
  {
    gap := window / (m as real);
    assert gap * (m as real) == window;
    amount := rate * gap;
  }

  /** Exactly which "limit requests per window" promises a full bucket keeps. */
  lemma EnforcesIff(b: Bucket, limit: real, window: real)
    requires b.Valid() && b.tokens == b.capacity && 0.0 < window
    ensures Enforces(b, limit, window) <==> b.capacity + b.rate * window <= limit
  {
    if b.capacity + b.rate * window <= limit {
      forall run: Run, i: nat, j: nat
        | run.Legal() && run.states[0] == b && i < j <= |run.steps| && run.steps[j - 1].at - run.steps[i].at <= window
        ensures GrantedIn(run.granted, i, j) <= limit
      {
        WithinWindow(run, i, j, b, window);
      }
    } else {
      var run := AllowanceIsReached(b, window);
      var i: nat, j: nat := 0, |run.steps|;
      assert run.steps[j - 1].at - run.steps[i].at <= window;
      assert GrantedIn(run.granted, i, j) > limit;
    }
  }

  lemma WithinWindow(run: Run, i: nat, j: nat, b: Bucket, window: real)
    requires run.Legal() && run.states[0] == b && i < j <= |run.steps|
    requires run.steps[j - 1].at - run.steps[i].at <= window
    ensures GrantedIn(run.granted, i, j) <= b.capacity + b.rate * window
  {
    WindowBound(run, i, j);
    MulMono(run.steps[j - 1].at - run.steps[i].at, window, b.rate);
  }

  /** The documented "100 requests / 10 s" does not hold of the bucket the REST client builds
      (rate r, capacity 10 r): in ten seconds it lets 20 r through. */
  lemma DocumentedWindowIsExceeded(rps: real, start: real)
    requires 0.1 <= rps
    ensures !Enforces(Bucket(rps, 10.0 * rps, 10.0 * rps, start), 10.0 * rps, 10.0)
    ensures Enforces(Bucket(rps, 10.0 * rps, 10.0 * rps, start), 20.0 * rps, 10.0)
  {
    EnforcesIff(Bucket(rps, 10.0 * rps, 10.0 * rps, start), 10.0 * rps, 10.0);
    EnforcesIff(Bucket(rps, 10.0 * rps, 10.0 * rps, start), 20.0 * rps, 10.0);
  }

  // ------------------------------------------------------------------ the object

  datatype Error = BadRate | BadCapacity | BadAmount | ExceedsCapacity

  class TokenBucket {
    const rate: real
    const capacity: real
    var tokens: real
    var lastRefill: real

    ghost function Contents(): Bucket reads this {
      Bucket(rate, capacity, tokens, lastRefill)
    }

    constructor Make(rate: real, capacity: real, now: real)
      requires 0.0 < rate && 0.0 < capacity
      ensures Contents() == Bucket(rate, capacity, capacity, now) && Contents().Valid()
    {
      this.rate, this.capacity, this.tokens, this.lastRefill := rate, capacity, capacity, now;
    }

    /** The checks of `__init__`: the capacity defaults to max(1, rate). */
    static method Create(rate: real, capacity: Option<real>, now: real) returns (r: Result<TokenBucket, Error>)
      ensures r.Err? <==> rate <= 0.0 || (capacity.Some? && capacity.value <= 0.0)
      ensures r.Ok? ==>
                && fresh(r.value)
                && r.value.Contents().Valid()
                && r.value.Contents() == var c := if capacity.Some? then capacity.value else Max(1.0, rate);
                                         Bucket(rate, c, c, now)
    {
      if rate <= 0.0 {
        return Err(BadRate);
      }
      var c := if capacity.Some? then capacity.value else Max(1.0, rate);
      if c <= 0.0 {
        return Err(BadCapacity);
      }
      var b := new TokenBucket.Make(rate, c, now);
      return Ok(b);
    }

    method Refill(now: real)
      modifies this`tokens, this`lastRefill
      ensures Contents() == old(Contents()).Refill(now)
    {
      var elapsed := now - lastRefill;
      if elapsed > 0.0 {
        tokens := Min(capacity, tokens + elapsed * rate);
        lastRefill := now;
      }
    }

    /** One `acquire` call. `clock` holds the successive monotonic-clock readings the call would
        see; the result is None when they end while the call is still waiting. The call makes one
        poll per reading it consumed, and only the poll that returns is granted anything. */
    method Acquire(n: real, clock: seq<real>) returns (r: Result<Option<nat>, Error>, ghost run: Run)
      requires Contents().Valid()
      requires forall i, j :: 0 <= i < j < |clock| ==> clock[i] <= clock[j]
      requires |clock| > 0 ==> lastRefill <= clock[0]
      modifies this`tokens, this`lastRefill
      ensures r.Err? <==> n <= 0.0 || n > capacity
      ensures run.Legal() && run.states[0] == old(Contents()) && Contents() == run.states[|run.steps|]
      ensures r.Err? ==> run.steps == []
      ensures r.Ok? ==>
                && |run.steps| == (if r.value.Some? then r.value.value else |clock|) <= |clock|
                && (r.value.Some? ==> |run.steps| > 0)
                && (forall k :: 0 <= k < |run.steps| ==> run.steps[k] == Poll(clock[k], n))
                && (forall k :: 0 <= k < |run.steps| ==>
                      run.granted[k] == if r.value.Some? && k == |run.steps| - 1 then n else 0.0)
      ensures r.Ok? && ExactSleep(old(Contents()), n, clock) ==> r.value.Some? && r.value.value <= 2
    {
      run := Run([Contents()], [], []);
      if n <= 0.0 {
        return Err(BadAmount), run;
      }
      if n > capacity {
        return Err(ExceedsCapacity), run;
      }
      var k := 0;
      while k < |clock|
        invariant 0 <= k <= |clock| && |run.steps| == k
        invariant run.Legal() && run.states[0] == old(Contents()) && run.states[k] == Contents()
        invariant forall i :: 0 <= i < k ==> run.steps[i] == Poll(clock[i], n) && run.granted[i] == 0.0
        invariant k >= 2 ==> !ExactSleep(old(Contents()), n, clock)
      {
        ghost var step := Poll(clock[k], n);
        ExtendLegal(run, step);
        run := Extend(run, step);
        Refill(clock[k]);
        k := k + 1;
        if tokens >= n {
          tokens := tokens - n;
          return Ok(Some(k)), run;
        }
        if k == 2 {
          SecondRefusal(run, n, clock);
        }
      }
      return Ok(None), run;
    }
  }

  /** A sleep as long as the deficit asks for is enough: if the second reading is at least
      deficit / rate after the first, the call is granted by its second poll at the latest. */
  lemma OneSleepSuffices(b: Bucket, n: real, first: real, second: real)
    requires b.Valid() && 0.0 < n <= b.capacity && b.lastRefill <= first
    requires !Grants(b, Poll(first, n)) ==>
               second >= first + (n - b.Refill(first).tokens) / b.rate
    ensures Grants(b, Poll(first, n)) || Grants(Apply(b, Poll(first, n)), Poll(second, n))
  {
    RefillBounded(b, first);
    var p := Apply(b, Poll(first, n));
    if !Grants(b, Poll(first, n)) {
      var wait := (n - p.tokens) / b.rate;
      assert wait * b.rate == n - p.tokens;
      assert wait > 0.0;
      MulMono(wait, second - first, b.rate);
    }
  }

  /** The second reading comes at least as late as the first poll's deficit asks for. */
  ghost predicate ExactSleep(b: Bucket, n: real, clock: seq<real>) {
    b.Valid() && |clock| >= 2 && clock[1] >= clock[0] + (n - b.Refill(clock[0]).tokens) / b.rate
  }

  lemma SecondRefusal(run: Run, n: real, clock: seq<real>)
    requires run.Legal() && |run.steps| == 2 <= |clock| && n > 0.0
    requires run.steps[0] == Poll(clock[0], n) && run.steps[1] == Poll(clock[1], n)
    requires run.granted[0] == 0.0 && run.granted[1] == 0.0
    ensures !ExactSleep(run.states[0], n, clock)
  {
    assert run.StepOk(0) && run.StepOk(1);
    if ExactSleep(run.states[0], n, clock) {
      OneSleepSuffices(run.states[0], n, clock[0], clock[1]);
    }
  }

  lemma RefillAccrues(tokens: real, base: real, capacity: real, rate: real, t0: real, t1: real, t2: real)
    requires tokens >= Min(capacity, base + (t1 - t0) * rate) && t1 <= t2 && rate > 0.0
    ensures Min(capacity, tokens + (t2 - t1) * rate) >= Min(capacity, base + (t2 - t0) * rate)
  {
    var a, b, c := (t1 - t0) * rate, (t2 - t1) * rate, (t2 - t0) * rate;
    MulMono(0.0, t2 - t1, rate);
    Adjoin(t0, t1, t2, rate);
    MinAccrues(tokens, base, capacity, a, b, c);
  }

  lemma Adjoin(t0: real, t1: real, t2: real, rate: real)
    ensures (t1 - t0) * rate + (t2 - t1) * rate == (t2 - t0) * rate
  {
  }

  lemma MinAccrues(tokens: real, base: real, capacity: real, a: real, b: real, c: real)
    requires tokens >= Min(capacity, base + a) && b >= 0.0 && c == a + b
    ensures Min(capacity, tokens + b) >= Min(capacity, base + c)
  {
  }

  /** While nothing is granted the bucket fills at its rate, up to its capacity. */
  lemma {:induction false} Accrues(run: Run, i: nat, k: nat, base: real, capacity: real, rate: real, t0: real, t: real)
    requires run.Legal() && i < k <= |run.steps| && t0 == run.steps[i].at && t == run.steps[k - 1].at
    requires base == run.states[i + 1].tokens && capacity == run.states[0].capacity && rate == run.states[0].rate
    requires forall m :: i < m < k ==> run.granted[m] == 0.0
    ensures run.states[k].tokens >= Min(capacity, base + (t - t0) * rate)
  {
    hide Granted, Apply;
    if i + 1 < k {
      var t1, b := run.steps[k - 2].at, run.states[k - 1];
      Accrues(run, i, k - 1, base, capacity, rate, t0, t1);
      TokensStayInRange(run, k - 1);
      assert run.StepOk(k - 1);
      RefillAccrues(b.tokens, base, capacity, rate, t0, t1, t);
      UngrantedIsRefill(b, run.steps[k - 1], capacity, rate, t1, t);
    } else {
      Nothing(rate);
    }
  }

  lemma Nothing(rate: real)
    ensures 0.0 * rate == 0.0
  {
  }

  /** A step that grants nothing only refills. */
  lemma UngrantedIsRefill(b: Bucket, step: Step, capacity: real, rate: real, t1: real, t: real)
    requires b.Valid() && b.capacity == capacity && b.rate == rate
    requires b.lastRefill == t1 <= step.at == t && Granted(b, step) == 0.0 && (step.Poll? ==> step.n > 0.0)
    ensures Apply(b, step).tokens >= Min(capacity, b.tokens + (t - t1) * rate)
  {
    RefillGives(b, capacity, rate, t1, t);
  }

  lemma RefillGives(b: Bucket, capacity: real, rate: real, t1: real, t: real)
    requires b.Valid() && b.capacity == capacity && b.rate == rate && b.lastRefill == t1 <= t
    ensures b.Refill(t).tokens >= Min(capacity, b.tokens + (t - t1) * rate)
  {
    Nothing(rate);
  }

  lemma SleepCovers(n: real, base: real, capacity: real, rate: real, t0: real, t: real)
    requires rate > 0.0 && n <= capacity && t >= t0 + (n - base) / rate
    ensures Min(capacity, base + (t - t0) * rate) >= n
  {
    var wait := (n - base) / rate;
    assert wait * rate == n - base;
    MulMono(wait, t - t0, rate);
  }

  /** In any run a refused call that sleeps exactly as long as its deficit asks for is granted by its next
      poll, whatever snapshots are taken in between. */
  lemma ServedAfterOneSleep(run: Run, i: nat, j: nat, n: real)
    requires run.Legal() && i < j < |run.steps| && run.steps[i] == Poll(run.steps[i].at, n)
    requires run.steps[j] == Poll(run.steps[j].at, n) && run.granted[i] == 0.0
    requires forall k :: i < k < j ==> run.steps[k].Snapshot?
    requires run.steps[j].at >= run.steps[i].at + (n - run.states[i + 1].tokens) / run.states[0].rate
    ensures run.granted[j] == n
  {
    hide Apply;
    forall k | i < k < j ensures run.granted[k] == 0.0 {
      assert run.StepOk(k);
    }
    var t0, t1, t := run.steps[i].at, run.steps[j - 1].at, run.steps[j].at;
    var base, capacity, rate := run.states[i + 1].tokens, run.states[0].capacity, run.states[0].rate;
    Accrues(run, i, j, base, capacity, rate, t0, t1);
    TokensStayInRange(run, j);
    assert run.StepOk(j);
    RefillAccrues(run.states[j].tokens, base, capacity, rate, t0, t1, t);
    SleepCovers(n, base, capacity, rate, t0, t);
    RefillGives(run.states[j], capacity, rate, t1, t);
  }

  lemma SleepFallsShort(n: real, base: real, rate: real, t0: real, t: real)
    requires rate > 0.0 && t < t0 + (n - base) / rate
    ensures base + (t - t0) * rate < n
  {
    var wait := (n - base) / rate;
    assert wait * rate == n - base;
    MulStrict(t - t0, wait, rate);
  }

  lemma RefillAtMost(b: Bucket, rate: real, t0: real, t: real)
    requires b.Valid() && b.rate == rate && b.lastRefill == t0 <= t
    ensures b.Refill(t).tokens <= b.tokens + (t - t0) * rate
  {
    RefillBounded(b, t);
  }

  /** And it is the shortest such sleep: any earlier reading is refused again. */
  lemma ShorterSleepFails(b: Bucket, n: real, first: real, second: real)
    requires b.Valid() && 0.0 < n <= b.capacity && b.lastRefill <= first <= second
    requires !Grants(b, Poll(first, n)) && second < first + (n - b.Refill(first).tokens) / b.rate
    ensures !Grants(Apply(b, Poll(first, n)), Poll(second, n))
  {
    RefillBounded(b, first);
    var p, rate := Apply(b, Poll(first, n)), b.rate;
    SleepFallsShort(n, p.tokens, rate, first, second);
    RefillAtMost(p, rate, first, second);
  }
}
