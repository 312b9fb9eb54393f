/** The token bucket that paces submission, over exact arithmetic. Instants are reals read under the limiter's lock. */
module RateLimiter {
  import opened Wrappers

  datatype RateStep = RateStep(tps: nat, duration: real)

  /** Ten milliseconds of credit. */
  const MAX_BURST: real := 0.01

  function Max(a: real, b: real): real { if a < b then b else a }

  function Min(a: real, b: real): real { if b < a then b else a }

  function Burst(rate: real): real {
    Max(rate * MAX_BURST, 1.0)
  }

  /** What a rate yields in a time. */
  function Yield(time: real, rate: real): real {
    time * rate
  }

  /** A constant rate, or the steps that replace it. */
  datatype Plan = Plan(rate: nat, schedule: seq<RateStep>)
  {
    ghost predicate Valid() {
      rate > 0 && forall s :: s in schedule ==> s.tps > 0 && s.duration > 0.0
    }

    /** The rate some time after the start; the last step's holds afterwards. */
    function RateAt(elapsed: real): real {
      if schedule == [] then rate as real else StepRate(schedule, elapsed)
    }
  }

  function StepRate(steps: seq<RateStep>, elapsed: real): real
    requires steps != []
  {
    if elapsed < steps[0].duration || |steps| == 1 then steps[0].tps as real
    else StepRate(steps[1..], elapsed - steps[0].duration)
  }

  datatype Bucket = Bucket(tokens: real, lastRefill: real, started: Option<real>)

  function Elapsed(b: Bucket, now: real): real {
    if b.started.Some? then now - b.started.value else 0.0
  }

  /** Credit earned since the last refill at the rate of this moment, capped at its burst. */
  function Refilled(p: Plan, b: Bucket, now: real): Bucket {
    var rate := p.RateAt(Elapsed(b, now));
    b.(tokens := Min(b.tokens + Yield(now - b.lastRefill, rate), Burst(rate)), lastRefill := now)
  }

  /** The bucket after one request, and the delay with which it was refused, if it was. */
  function Request(p: Plan, b: Bucket, now: real): (Bucket, Option<real>)
    requires p.Valid()
  {
    var r := Refilled(p, b, now);
    RatePositive(p, Elapsed(b, now));
    if r.tokens >= 1.0 then (r.(tokens := r.tokens - 1.0), None)
    else (r, Some((1.0 - r.tokens) / p.RateAt(Elapsed(b, now))))
  }

  lemma RatePositive(p: Plan, elapsed: real)
    requires p.Valid()
    ensures p.RateAt(elapsed) > 0.0
  {
    if p.schedule != [] {
      StepRatePositive(p.schedule, elapsed);
    }
  }

  lemma {:induction false} StepRatePositive(steps: seq<RateStep>, elapsed: real)
    requires steps != [] && forall s :: s in steps ==> s.tps > 0
    ensures StepRate(steps, elapsed) > 0.0
    decreases |steps|
  {
    assert steps[0] in steps;
    if !(elapsed < steps[0].duration || |steps| == 1) {
      StepRatePositive(steps[1..], elapsed - steps[0].duration);
    }
  }

  class Limiter {
    const plan: Plan
    var tokens: real
    var lastRefill: real
    var started: Option<real>

    ghost function View(): Bucket
      reads this
    {
      Bucket(tokens, lastRefill, started)
    }

    /** First-step credit, or the constant rate's. */
    constructor (plan: Plan, now: real)
      requires plan.Valid()
      ensures this.plan == plan
      ensures View() == Bucket(Burst(plan.RateAt(0.0)), now, None)
    {
      this.plan := plan;
      var initial := if plan.schedule == [] then plan.rate as real else plan.schedule[0].tps as real;
      tokens := Max(initial * MAX_BURST, 1.0);
      lastRefill, started := now, None;
      new;
      assert plan.schedule != [] ==> plan.schedule[0] in plan.schedule;
    }

    /** Start the schedule from its first step, with first-step credit. */
    method Start(now: real)
      requires plan.Valid()
      modifies this
      ensures View() == if plan.schedule == [] then old(View()) else Bucket(Burst(plan.RateAt(0.0)), now, Some(now))
    {
      if plan.schedule == [] {
        return;
      }
      assert plan.schedule[0] in plan.schedule;
      started := Some(now);
      tokens := Max(plan.schedule[0].tps as real * MAX_BURST, 1.0);
      lastRefill := now;
    }

    method RateAt(elapsed: real) returns (r: real)
      ensures r == plan.RateAt(elapsed)
    {
      var offset := 0.0;
      for i := 0 to |plan.schedule|
        invariant plan.schedule != [] && i < |plan.schedule| ==>
          StepRate(plan.schedule, elapsed) == StepRate(plan.schedule[i..], elapsed - offset)
        invariant i == |plan.schedule| > 0 ==> StepRate(plan.schedule, elapsed) == plan.schedule[i - 1].tps as real
      {
        var step := plan.schedule[i];
        assert plan.schedule[i..][1..] == plan.schedule[i + 1..];
        offset := offset + step.duration;
        if elapsed < offset {
          return step.tps as real;
        }
      }
      if plan.schedule != [] {
        return plan.schedule[|plan.schedule| - 1].tps as real;
      }
      return plan.rate as real;
    }

    /** Take a token, or say how long until there is one. */
    method TryAcquireOrDelay(now: real) returns (delay: Option<real>)
      requires plan.Valid() && now >= lastRefill
      modifies this`tokens, this`lastRefill
      ensures (View(), delay) == Request(plan, old(View()), now)
    {
      ghost var b := View();
      var elapsed := if started.Some? then now - started.value else 0.0;
      var rate := RateAt(elapsed);
      RatePositive(plan, elapsed);
      var capacity := Max(rate * MAX_BURST, 1.0);
      tokens := Min(tokens + Yield(now - lastRefill, rate), capacity);
      lastRefill := now;
      hide Yield, Min, Max;
      assert View() == Refilled(plan, b, now);
      if tokens >= 1.0 {
        tokens := tokens - 1.0;
        return None;
      }
      return Some((1.0 - tokens) / rate);
    }
  }

  // --------------------------------------------------------------- sequences

  /** Request times in order, none before the last refill. */
  ghost predicate InOrder(b: Bucket, times: seq<real>) {
    && (forall i, j :: 0 <= i < j < |times| ==> times[i] <= times[j])
    && (forall i :: 0 <= i < |times| ==> b.lastRefill <= times[i])
  }

  /** The bucket and the number of grants after all the requests. */
  function After(p: Plan, b: Bucket, times: seq<real>): (Bucket, nat)
    requires p.Valid()
  {
    if times == [] then (b, 0)
    else
      var before := After(p, b, times[..|times| - 1]);
      var r := Request(p, before.0, times[|times| - 1]);
      (r.0, before.1 + if r.1.None? then 1 else 0)
  }

  lemma RequestShape(p: Plan, b: Bucket, now: real)
    requires p.Valid() && b.tokens >= 0.0 && now >= b.lastRefill
    ensures var (a, delay) := Request(p, b, now);
      var rate := p.RateAt(Elapsed(b, now));
      && a.started == b.started && a.tokens >= 0.0 && a.lastRefill == now
      && a.tokens + (if delay.None? then 1.0 else 0.0) <= b.tokens + Yield(now - b.lastRefill, rate)
      && a.tokens + (if delay.None? then 1.0 else 0.0) <= Burst(rate)
  {
    var rate := p.RateAt(Elapsed(b, now));
    RatePositive(p, Elapsed(b, now));
    YieldPositive(now - b.lastRefill, rate);
    hide Yield, StepRate;
  }

  lemma {:induction false} AfterShape(p: Plan, b: Bucket, times: seq<real>)
    requires p.Valid() && InOrder(b, times) && b.tokens >= 0.0
    ensures var a := After(p, b, times).0;
      a.started == b.started && a.tokens >= 0.0 &&
        a.lastRefill == if times == [] then b.lastRefill else times[|times| - 1]
  {
    if times != [] {
      var n := |times| - 1;
      AfterShape(p, b, times[..n]);
      hide Request;
      RequestShape(p, After(p, b, times[..n]).0, times[n]);
    }
  }

  lemma YieldPositive(time: real, rate: real)
    requires time >= 0.0 && rate >= 0.0
    ensures Yield(time, rate) >= 0.0
  {
  }

  lemma YieldAdds(a: real, b: real, rate: real)
    ensures Yield(a + b, rate) == Yield(a, rate) + Yield(b, rate)
  {
  }

  lemma YieldMonotone(a: real, b: real, rate: real)
    requires a <= b && rate >= 0.0
    ensures Yield(a, rate) <= Yield(b, rate)
  {
    YieldAdds(a, b - a, rate);
    YieldPositive(b - a, rate);
    assert a + (b - a) == b;
  }

  lemma YieldZero(rate: real)
    ensures Yield(0.0, rate) == 0.0
  {
  }

  /** At a constant rate, whatever came before, a window grants at most one burst plus the rate times its length. */
  lemma WindowBound(p: Plan, b: Bucket, times: seq<real>, from: real, to: real)
    requires p.Valid() && p.schedule == [] && b.tokens >= 0.0 && InOrder(b, times) && from <= to
    requires forall t :: t in times ==> from <= t <= to
    ensures After(p, b, times).1 as real <= Max(1.0, p.rate as real / 100.0) + p.rate as real * (to - from)
  {
    var r := p.rate as real;
    BurstIsHundredth(r);
    YieldPositive(to - from, r);
    assert Yield(to - from, r) == r * (to - from);
    hide Yield, Burst, Max;
    BurstPositive(r);
    if times != [] {
      CreditBound(p, b, times);
      AfterShape(p, b, times);
      var last := times[|times| - 1];
      assert times[0] in times && last in times;
      YieldMonotone(last - times[0], to - from, r);
    }
  }

  lemma BurstIsHundredth(r: real)
    ensures Burst(r) == Max(1.0, r / 100.0)
  {
  }

  lemma BurstPositive(r: real)
    ensures Burst(r) >= 1.0
  {
  }

  lemma {:induction false} CreditBound(p: Plan, b: Bucket, times: seq<real>)
    requires p.Valid() && p.schedule == [] && b.tokens >= 0.0 && InOrder(b, times) && times != []
    ensures var a := After(p, b, times);
      a.1 as real + a.0.tokens <= Burst(p.rate as real) + Yield(times[|times| - 1] - times[0], p.rate as real)
  {
    hide Yield, Burst, Request;
    var r := p.rate as real;
    var n := |times| - 1;
    AfterShape(p, b, times[..n]);
    RequestShape(p, After(p, b, times[..n]).0, times[n]);
    if n == 0 {
      assert times[..0] == [];
      YieldZero(r);
      assert times[0] - times[0] == 0.0;
    } else {
      CreditBound(p, b, times[..n]);
      YieldAdds(times[n] - times[n - 1], times[n - 1] - times[0], r);
      assert times[n] - times[0] == times[n] - times[n - 1] + (times[n - 1] - times[0]);
    }
  }

  /** A refused request at a constant rate is granted after exactly the returned delay, and not before. */
  lemma DelaySuffices(p: Plan, b: Bucket, now: real, later: real)
    requires p.Valid() && p.schedule == [] && later >= now && Request(p, b, now).1.Some?
    ensures var (a, delay) := Request(p, b, now);
      delay.value > 0.0 && (Request(p, a, later).1.None? <==> later >= now + delay.value)
  {
    var r := p.rate as real;
    var (a, delay) := Request(p, b, now);
    BurstPositive(r);
    hide Yield, Burst;
    assert a.tokens < 1.0 && delay.value == (1.0 - a.tokens) / r;
    Divides(1.0 - a.tokens, r, later - now);
  }

  lemma Divides(x: real, r: real, t: real)
    requires r > 0.0 && x > 0.0
    ensures x / r > 0.0 && (Yield(t, r) >= x <==> t >= x / r)
  {
    var q := x / r;
    assert Yield(q, r) == x;
    if t >= q {
      YieldMonotone(q, t, r);
    } else {
      assert Yield(q - t, r) > 0.0;
      YieldAdds(t, q - t, r);
      assert t + (q - t) == q;
    }
  }

  /** `n` requests at one instant. */
  function AtOnce(now: real, n: nat): (r: seq<real>)
    ensures |r| == n && forall i :: 0 <= i < n ==> r[i] == now
  {
    seq(n, _ => now)
  }

  /** What the bucket holds at an instant: the credit of the time since the last refill, cut at the burst. */
  function Holds(p: Plan, b: Bucket, now: real): real {
    var rate := p.RateAt(Elapsed(b, now));
    Min(b.tokens + rate * (now - b.lastRefill), Max(1.0, rate / 100.0))
  }

  lemma RequestHolds(p: Plan, b: Bucket, now: real)
    requires p.Valid()
    ensures var t := Holds(p, b, now); var (a, delay) := Request(p, b, now);
      && (delay.None? <==> t >= 1.0)
      && a == b.(tokens := if delay.None? then t - 1.0 else t, lastRefill := now)
  {
    hide Plan.RateAt;
    var rate := p.RateAt(Elapsed(b, now));
    BurstIsHundredth(rate);
    YieldIsProduct(now - b.lastRefill, rate);
    hide Yield, Burst, Elapsed, Max;
  }

  lemma YieldIsProduct(dt: real, rate: real)
    ensures Yield(dt, rate) == rate * dt
  {
  }

  /** Of any number of requests at one instant as many are granted as there are whole tokens. */
  lemma {:induction false} BurstGrants(p: Plan, b: Bucket, now: real, n: nat)
    requires p.Valid() && b.tokens >= 0.0 && b.lastRefill <= now
    ensures var t := Holds(p, b, now); var a := After(p, b, AtOnce(now, n));
      && t >= 0.0
      && a.1 as real == (if n as real <= t then n as real else t.Floor as real)
      && (n > 0 ==> a.0 == b.(tokens := t - a.1 as real, lastRefill := now))
  {
    HoldsSomething(p, b, now);
    var t := Holds(p, b, now);
    if n == 0 {
      assert AtOnce(now, 0) == [];
    } else {
      BurstGrants(p, b, now, n - 1);
      assert AtOnce(now, n)[..n - 1] == AtOnce(now, n - 1);
      var before := After(p, b, AtOnce(now, n - 1));
      RequestHolds(p, before.0, now);
      if n > 1 {
        HoldsStill(p, b, now, before.0.tokens);
      }
      hide Holds, Request;
      FloorStep(t, n - 1);
    }
  }

  lemma HoldsSomething(p: Plan, b: Bucket, now: real)
    requires p.Valid() && b.tokens >= 0.0 && b.lastRefill <= now
    ensures Holds(p, b, now) >= 0.0
  {
    var rate := p.RateAt(Elapsed(b, now));
    RatePositive(p, Elapsed(b, now));
    YieldPositive(now - b.lastRefill, rate);
    var earned := rate * (now - b.lastRefill);
    assert Yield(now - b.lastRefill, rate) == earned;
    hide StepRate, Yield;
    assert earned >= 0.0;
    LeastOf(b.tokens + earned, Max(1.0, rate / 100.0));
  }

  lemma LeastOf(a: real, b: real)
    requires a >= 0.0 && b >= 0.0
    ensures Min(a, b) >= 0.0
  {
  }

  /** At the same instant nothing is earned. */
  lemma HoldsStill(p: Plan, b: Bucket, now: real, left: real)
    requires left <= Holds(p, b, now)
    ensures Holds(p, b.(tokens := left, lastRefill := now), now) == left
  {
    var rate := p.RateAt(Elapsed(b, now));
    assert rate * (now - now) == 0.0;
  }

  lemma FloorStep(t: real, k: nat)
    requires t >= 0.0
    ensures var g := if k as real <= t then k as real else t.Floor as real;
      var g' := if (k + 1) as real <= t then (k + 1) as real else t.Floor as real;
      g <= t && (t - g >= 1.0 <==> g' == g + 1.0) && (t - g < 1.0 <==> g' == g)
  {
    if k as real <= t < (k + 1) as real {
      assert t.Floor == k;
    }
  }

  // --------------------------------------------------------------- schedules

  function EndOf(steps: seq<RateStep>, k: nat): real
    requires k <= |steps|
  {
    if k == 0 then 0.0 else EndOf(steps, k - 1) + steps[k - 1].duration
  }

  lemma {:induction false} EndOfRest(steps: seq<RateStep>, k: nat)
    requires 0 < k <= |steps|
    ensures EndOf(steps, k) == steps[0].duration + EndOf(steps[1..], k - 1)
  {
    if k > 1 {
      EndOfRest(steps, k - 1);
      assert steps[1..][k - 2] == steps[k - 1];
    }
  }

  /** The rate is that of the step whose span holds the moment, and of the last step after all of them. */
  lemma {:induction false} StepInForce(steps: seq<RateStep>, elapsed: real, k: nat)
    requires k < |steps| && forall s :: s in steps ==> s.duration > 0.0
    requires EndOf(steps, k) <= elapsed || k == 0
    requires elapsed < EndOf(steps, k + 1) || k == |steps| - 1
    ensures StepRate(steps, elapsed) == steps[k].tps as real
    decreases k
  {
    if k > 0 {
      assert forall s :: s in steps[1..] ==> s in steps;
      EndOfRest(steps, k);
      EndOfRest(steps, k + 1);
      EndsAscend(steps[1..], k - 1);
      StepInForce(steps[1..], elapsed - steps[0].duration, k - 1);
    }
  }

  lemma {:induction false} EndsAscend(steps: seq<RateStep>, k: nat)
    requires k <= |steps| && forall s :: s in steps ==> s.duration > 0.0
    ensures EndOf(steps, k) >= 0.0
  {
    if k > 0 {
      EndsAscend(steps, k - 1);
      assert steps[k - 1] in steps;
    }
  }

  /** The bursts of the steps entered, and each one's rate times the time spent in it. */
  function Allowance(steps: seq<RateStep>, elapsed: real): real
    requires steps != []
  {
    var r := steps[0].tps as real;
    if elapsed < steps[0].duration || |steps| == 1 then Burst(r) + Yield(elapsed, r)
    else Burst(r) + Yield(steps[0].duration, r) + Allowance(steps[1..], elapsed - steps[0].duration)
  }

  lemma {:induction false} AllowancePositive(steps: seq<RateStep>, elapsed: real)
    requires steps != [] && elapsed >= 0.0 && forall s :: s in steps ==> s.tps > 0 && s.duration > 0.0
    ensures Allowance(steps, elapsed) >= Burst(StepRate(steps, elapsed))
    decreases |steps|
  {
    var r := steps[0].tps as real;
    assert steps[0] in steps && forall s :: s in steps[1..] ==> s in steps;
    YieldPositive(elapsed, r);
    BurstPositive(r);
    hide Yield, Burst;
    if !(elapsed < steps[0].duration || |steps| == 1) {
      YieldPositive(steps[0].duration, r);
      AllowancePositive(steps[1..], elapsed - steps[0].duration);
    }
  }

  /** Between two moments the allowance grows by the rate times the time, or by a new step's burst and more. */
  lemma {:induction false} AllowanceGrows(steps: seq<RateStep>, a: real, b: real)
    requires steps != [] && 0.0 <= a <= b && forall s :: s in steps ==> s.tps > 0 && s.duration > 0.0
    ensures Allowance(steps, b) == Allowance(steps, a) + Yield(b - a, StepRate(steps, b))
      || Allowance(steps, b) >= Allowance(steps, a) + Burst(StepRate(steps, b))
    decreases |steps|
  {
    var first := steps[0];
    var r := first.tps as real;
    assert first in steps && forall s :: s in steps[1..] ==> s in steps;
    hide Yield, Burst;
    if b < first.duration || |steps| == 1 {
      YieldAdds(a, b - a, r);
      assert a + (b - a) == b;
    } else if a < first.duration {
      YieldMonotone(a, first.duration, r);
      AllowancePositive(steps[1..], b - first.duration);
    } else {
      AllowanceGrows(steps[1..], a - first.duration, b - first.duration);
      assert b - first.duration - (a - first.duration) == b - a;
    }
  }

  /** Requests after the start never outrun the steps' bursts plus rate times time spent. */
  lemma {:induction false} ScheduleBound(p: Plan, start: real, times: seq<real>)
    requires p.Valid() && p.schedule != []
    requires InOrder(Bucket(Burst(p.RateAt(0.0)), start, Some(start)), times)
    ensures var a := After(p, Bucket(Burst(p.RateAt(0.0)), start, Some(start)), times);
      a.1 as real + a.0.tokens <= Allowance(p.schedule, (if times == [] then start else times[|times| - 1]) - start)
  {
    BurstPositive(p.RateAt(0.0));
    hide Allowance, StepRate, Burst, Request, Yield;
    var b := Bucket(Burst(p.RateAt(0.0)), start, Some(start));
    if times == [] {
      AllowancePositive(p.schedule, 0.0);
      assert start - start == 0.0;
    } else {
      var n := |times| - 1;
      ScheduleBound(p, start, times[..n]);
      AfterShape(p, b, times[..n]);
      var before := if n == 0 then start else times[n - 1];
      AllowanceGrows(p.schedule, before - start, times[n] - start);
      assert times[n] - start - (before - start) == times[n] - before;
      RequestShape(p, After(p, b, times[..n]).0, times[n]);
    }
  }

  /** The grants alone, from the start of a schedule. */
  lemma ScheduleGrants(p: Plan, start: real, times: seq<real>)
    requires p.Valid() && p.schedule != [] && times != []
    requires InOrder(Bucket(Burst(p.RateAt(0.0)), start, Some(start)), times)
    ensures After(p, Bucket(Burst(p.RateAt(0.0)), start, Some(start)), times).1 as real
      <= Allowance(p.schedule, times[|times| - 1] - start)
  {
    ScheduleBound(p, start, times);
    BurstPositive(p.RateAt(0.0));
    hide Allowance, Burst, Request;
    AfterShape(p, Bucket(Burst(p.RateAt(0.0)), start, Some(start)), times);
  }
}
