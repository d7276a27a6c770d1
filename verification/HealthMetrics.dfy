/**
 Registration health metrics (src/blockchain/registration_metrics.rs): the running mean of check
 durations, in whole nanoseconds with floor division.
 */
module HealthMetrics {
  import opened Common

  const U32: nat := 0x1_0000_0000

  datatype Metrics = Metrics(healthCheckCount: nat, averageCheckDuration: nat, consecutiveFailures: nat)

  datatype Check = Check(duration: nat, success: bool)

  const NEW_METRICS := Metrics(0, 0, 0)

  /** The mean of `n` durations from the mean of the first `k`, which is one less, and the last. */
  function Blend(average: nat, k: nat, duration: nat, n: nat): nat
    requires n > 0
  {
    (average * k + duration) / n
  }

  /** The count as the division sees it. */
  function Wrapped(count: nat): (n: nat)
    ensures n <= count && n < U32 && n == count % 0x1_0000_0000
  {
    count % U32
  }

  /** The new mean; none where the count, cut to 32 bits, is zero and the division panics. */
  function NewMean(average: nat, count: nat, duration: nat): Option<nat>
    requires count > 0
  {
    var n := Wrapped(count);
    if n == 0 then None else Some(Blend(average, Wrapped(count - 1), duration, n))
  }

  function Recorded(m: Metrics, check: Check): Metrics {
    var count := m.healthCheckCount + 1;
    var mean := NewMean(m.averageCheckDuration, count, check.duration);
    if mean.None? then m.(healthCheckCount := count)
    else Metrics(count, mean.value, if check.success then 0 else m.consecutiveFailures + 1)
  }

  function Run(checks: seq<Check>): Metrics {
    if checks == [] then NEW_METRICS else Recorded(Run(checks[..|checks| - 1]), checks[|checks| - 1])
  }

  function Total(checks: seq<Check>): nat {
    if checks == [] then 0 else Total(checks[..|checks| - 1]) + checks[|checks| - 1].duration
  }

  lemma MulSub(n: nat, a: nat)
    requires n > 0
    ensures n * a == (n - 1) * a + a
  {
  }

  lemma DivMod(x: nat, n: nat)
    requires n > 0
    ensures x == n * (x / n) + x % n && 0 <= x % n <= n - 1
  {
  }

  /** One step: the shortfall of n times the mean grows by the remainder of the division, at most n - 1. */
  lemma BlendShortfall(average: nat, n: nat, duration: nat)
    requires n > 0
    ensures 0 <= (n - 1) * average + duration - n * Blend(average, n - 1, duration, n) <= n - 1
  {
    Commutes(average, n - 1);
    DivMod((n - 1) * average + duration, n);
  }

  lemma Commutes(a: nat, b: nat)
    ensures a * b == b * a
  {
  }

  lemma StepShortfall(average: nat, n: nat, duration: nat)
    requires 0 < n < U32
    ensures NewMean(average, n, duration) == Some(Blend(average, n - 1, duration, n))
    ensures 0 <= (n - 1) * average + duration - n * NewMean(average, n, duration).value <= n - 1
  {
    hide Blend;
    BlendShortfall(average, n, duration);
  }

  function Triangle(n: nat): nat {
    n * (n - 1) / 2
  }

  lemma TriangleStep(n: nat)
    requires n > 0
    ensures Triangle(n) == Triangle(n - 1) + n - 1
  {
    assert n * (n - 1) == (n - 1) * (n - 2) + 2 * (n - 1);
  }

  /**
   Below 2^32 checks the stored mean never exceeds the true one and n times it falls short of the
   sum by at most n(n-1)/2, that is, the mean by at most (n-1)/2 nanoseconds.
   */
  lemma {:induction false} MeanIsClose(checks: seq<Check>)
    requires |checks| < 0x1_0000_0000
    ensures var n, m := |checks|, Run(checks);
      m.healthCheckCount == n && n * m.averageCheckDuration <= Total(checks) <= n * m.averageCheckDuration + Triangle(n)
  {
    hide NewMean, Triangle;
    var n := |checks|;
    if n == 0 {
      NoTriangle();
    } else {
      var before, check := checks[..n - 1], checks[n - 1];
      MeanIsClose(before);
      StepShortfall(Run(before).averageCheckDuration, n, check.duration);
      TriangleStep(n);
    }
  }

  lemma NoTriangle()
    ensures Triangle(0) == 0
  {
  }

  ghost predicate AllBetween(checks: seq<Check>, low: nat, high: nat) {
    forall i :: 0 <= i < |checks| ==> low <= checks[i].duration <= high
  }

  /** And it stays between any bounds the samples keep to, so between the smallest and the largest. */
  lemma {:induction false} MeanIsBetween(checks: seq<Check>, low: nat, high: nat)
    requires 0 < |checks| < 0x1_0000_0000 && AllBetween(checks, low, high)
    ensures low <= Run(checks).averageCheckDuration <= high
  {
    hide NewMean;
    var n := |checks|;
    var before, check := checks[..n - 1], checks[n - 1];
    MeanIsClose(before);
    assert low <= check.duration <= high;
    if n > 1 {
      MeanIsBetween(before, low, high);
      StepIsBetween(Run(before).averageCheckDuration, n, check.duration, low, high);
    } else {
      FirstMean(check.duration);
      assert before == [];
    }
  }

  lemma FirstMean(duration: nat)
    ensures NewMean(0, 1, duration) == Some(duration)
  {
  }

  lemma StepIsBetween(average: nat, n: nat, duration: nat, low: nat, high: nat)
    requires 0 < n < U32 && low <= average <= high && low <= duration <= high
    ensures NewMean(average, n, duration).Some? && low <= NewMean(average, n, duration).value <= high
  {
    hide Blend, NewMean;
    StepShortfall(average, n, duration);
    var mean := Blend(average, n - 1, duration, n);
    Scales(n - 1, low, average);
    Scales(n - 1, average, high);
    MulSub(n, low);
    MulSub(n, high);
    Beyond(n, mean, low);
    Beyond(n, high, mean);
  }

  lemma Scales(k: nat, a: nat, b: nat)
    requires a <= b
    ensures k * a <= k * b
  {
  }

  lemma Beyond(n: nat, a: nat, b: nat)
    ensures a < b ==> n * a + n <= n * b
  {
    if a < b {
      Scales(n, a + 1, b);
      assert n * (a + 1) == n * a + n;
    }
  }

  /** The checks that last 0, 1, 2, ... nanoseconds. */
  function Ramp(n: nat): (r: seq<Check>)
    ensures |r| == n
  {
    if n == 0 then [] else Ramp(n - 1) + [Check(n - 1, true)]
  }

  /** The bound is reached, for every n: on the ramp the stored mean stays zero. */
  lemma {:induction false} BoundIsReached(n: nat)
    requires n < U32
    ensures Run(Ramp(n)).averageCheckDuration == 0 && Total(Ramp(n)) == Triangle(n)
  {
    hide Triangle, Blend, NewMean;
    if n == 0 {
      NoTriangle();
    } else {
      BoundIsReached(n - 1);
      assert Ramp(n)[..n - 1] == Ramp(n - 1);
      MeanIsClose(Ramp(n - 1));
      TriangleStep(n);
      StepShortfall(0, n, n - 1);
      SmallBlend(n);
    }
  }

  lemma SmallBlend(n: nat)
    requires n > 0
    ensures Blend(0, n - 1, n - 1, n) == 0
  {
    assert 0 * (n - 1) == 0;
    DivMod(n - 1, n);
    Beyond(n, 0, (n - 1) / n);
  }

  lemma WrapStep(count: nat)
    requires count > 0
    ensures Wrapped(count) > 0 ==> Wrapped(count - 1) == Wrapped(count) - 1
    ensures count < U32 ==> Wrapped(count) == count
  {
  }

  /**
   Without the bound on n: the check that brings the count to a multiple of 2^32 panics and leaves
   the mean alone, and the mean after any other count is that of the checks since the last such one.
   */
  lemma {:induction false} MeanForgets(checks: seq<Check>)
    ensures Run(checks).healthCheckCount == |checks|
    ensures var n := Wrapped(|checks|);
      if n == 0 then checks != [] ==>
          Run(checks).averageCheckDuration == Run(checks[..|checks| - 1]).averageCheckDuration
      else Run(checks).averageCheckDuration == Run(checks[|checks| - n..]).averageCheckDuration
  {
    hide Blend, Recorded, Wrapped;
    if checks != [] {
      var before, check, n := checks[..|checks| - 1], checks[|checks| - 1], Wrapped(|checks|);
      MeanForgets(before);
      RecordedMean(Run(before), check);
      if n > 0 {
        var since := checks[|checks| - n..];
        var earlier := since[..n - 1];
        WrapStep(|checks|);
        WrapStep(n);
        assert earlier == before[|before| - (n - 1)..];
        assert since == earlier + [check];
        MeanIsClose(earlier);
        RecordedMean(Run(earlier), check);
        FirstBlend(Run(before).averageCheckDuration, Run(earlier).averageCheckDuration, check.duration);
      }
    }
  }

  lemma RecordedMean(m: Metrics, check: Check)
    ensures var n, r := Wrapped(m.healthCheckCount + 1), Recorded(m, check);
      && r.healthCheckCount == m.healthCheckCount + 1
      && r.averageCheckDuration == if n == 0 then m.averageCheckDuration
          else Blend(m.averageCheckDuration, n - 1, check.duration, n)
  {
    hide Blend;
  }

  lemma FirstBlend(a: nat, b: nat, duration: nat)
    ensures Blend(a, 0, duration, 1) == Blend(b, 0, duration, 1)
  {
  }

  /** The failure counter is the number of failed checks since the last good one. */
  lemma {:induction false} FailuresAreConsecutive(checks: seq<Check>)
    requires |checks| < 0x1_0000_0000
    ensures var k := Run(checks).consecutiveFailures;
      && k <= |checks|
      && (forall i :: |checks| - k <= i < |checks| ==> !checks[i].success)
      && (k < |checks| ==> checks[|checks| - k - 1].success)
  {
    if checks != [] {
      var before := checks[..|checks| - 1];
      FailuresAreConsecutive(before);
      MeanIsClose(before);
      StepShortfall(Run(before).averageCheckDuration, |checks|, checks[|checks| - 1].duration);
    }
  }

  // ---------------------------------------------------------------- the metrics object

  class RegistrationMetrics {
    var healthCheckCount: nat
    var averageCheckDuration: nat
    var consecutiveFailures: nat

    constructor ()
      ensures View() == NEW_METRICS
    {
      healthCheckCount, averageCheckDuration, consecutiveFailures := 0, 0, 0;
    }

    ghost function View(): Metrics
      reads this
    {
      Metrics(healthCheckCount, averageCheckDuration, consecutiveFailures)
    }

    /** `record_health_check`; false stands for the panic of a division by zero. */
    method RecordHealthCheck(check: Check) returns (ok: bool)
      modifies this
      ensures View() == Recorded(old(View()), check)
      ensures ok <==> healthCheckCount % 0x1_0000_0000 != 0
    {
      healthCheckCount := healthCheckCount + 1;
      hide Blend;
      if Wrapped(healthCheckCount) == 0 {
        return false;
      }
      var n, k := Wrapped(healthCheckCount), Wrapped(healthCheckCount - 1);
      averageCheckDuration := Blend(averageCheckDuration, k, check.duration, n);
      consecutiveFailures := if check.success then 0 else consecutiveFailures + 1;
      ok := true;
    }
  }
}
