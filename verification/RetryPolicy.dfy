// When a failed deletion attempt runs again: a clamped schedule with
// deterministic jitter, in 64-bit nanoseconds.
module RetryPolicy {
  const SECOND: int := 1_000_000_000
  const MINUTE: int := 60 * SECOND
  const HOUR: int := 60 * MINUTE

  const TWO_63: int := 0x8000_0000_0000_0000
  const TWO_64: int := 0x1_0000_0000_0000_0000

  // Go's int64 and uint64 conversions wrap.
  function ToInt64(x: int): (r: int)
    ensures -TWO_63 <= r < TWO_63 && (r - x) % TWO_64 == 0
  {
    var low := x % TWO_64;
    if low < TWO_63 then low else low - TWO_64
  }

  function ToUint64(x: int): int {
    x % TWO_64
  }

  predicate Int64(x: int) {
    -TWO_63 <= x < TWO_63
  }

  datatype Policy = Policy(delays: seq<int>, maxJitter: int) {
    predicate Valid() {
      Int64(maxJitter) && forall delay <- delays :: Int64(delay)
    }
  }

  const DEFAULT: Policy := Policy([0, MINUTE, 5 * MINUTE, 15 * MINUTE, HOUR, 6 * HOUR], 30 * SECOND)

  // `hash` is the FNV-1a sum of the job id and the attempt number.
  function DeterministicJitter(hash: nat, maximum: int): int
    requires 0 < maximum < TWO_63
  {
    var width := ToUint64(ToInt64(ToInt64(2 * maximum) + 1));
    WidthIsExact(maximum);
    ToInt64(ToInt64(hash % width) - maximum)
  }

  // The width never wraps to zero, or to anything but 2 * maximum + 1.
  lemma WidthIsExact(maximum: int)
    requires 0 < maximum < TWO_63
    ensures ToUint64(ToInt64(ToInt64(2 * maximum) + 1)) == 2 * maximum + 1
  {
    SameResidue(ToInt64(2 * maximum) + 1, 2 * maximum + 1);
    SameResidue(ToInt64(ToInt64(2 * maximum) + 1), 2 * maximum + 1);
  }

  lemma SameResidue(x: int, y: int)
    requires (x - y) % TWO_64 == 0
    ensures x % TWO_64 == y % TWO_64 && ToInt64(x) == ToInt64(y)
  {
  }

  // Wrapping cancels: for every maximum the jitter stays in its symmetric range
  // and every value of the range is some hash's jitter.
  lemma JitterIsBounded(hash: nat, maximum: int)
    requires 0 < maximum < TWO_63
    ensures DeterministicJitter(hash, maximum) == hash % (2 * maximum + 1) - maximum
    ensures -maximum <= DeterministicJitter(hash, maximum) <= maximum
  {
    WidthIsExact(maximum);
    var drawn := hash % (2 * maximum + 1);
    SameResidue(ToInt64(drawn) - maximum, drawn - maximum);
    assert ToInt64(drawn - maximum) == drawn - maximum;
  }

  lemma EveryJitterIsDrawn(jitter: int, maximum: int) returns (hash: nat)
    requires 0 < maximum < TWO_63 && -maximum <= jitter <= maximum
    ensures hash < TWO_64 && DeterministicJitter(hash, maximum) == jitter
  {
    hash := jitter + maximum;
    SmallIsItsOwnResidue(hash, 2 * maximum + 1);
    JitterIsBounded(hash, maximum);
  }

  lemma SmallIsItsOwnResidue(x: nat, width: nat)
    requires x < width
    ensures x % width == x
  {
  }

  function Effective(policy: Policy): (r: Policy)
    ensures |r.delays| > 0
  {
    if policy.delays == [] then DEFAULT else policy
  }

  function Index(policy: Policy, attempt: int): nat
    requires |policy.delays| > 0
  {
    if attempt < 0 then 0 else if attempt >= |policy.delays| then |policy.delays| - 1 else attempt
  }

  function ClampedDelay(policy: Policy, attempt: int): int {
    var effective := Effective(policy);
    effective.delays[Index(effective, attempt)]
  }

  // RetryPolicy.Next, as the delay added to now.
  function NextDelay(policy: Policy, hash: nat, attempt: int): int {
    var effective := Effective(policy);
    if 0 < effective.maxJitter < TWO_63
    then Jittered(policy, attempt, DeterministicJitter(hash, effective.maxJitter))
    else ClampedDelay(policy, attempt)
  }

  // The first entry of the schedule is never jittered.
  function Jittered(policy: Policy, attempt: int, jitter: int): int {
    if Index(Effective(policy), attempt) > 0 then ToInt64(ClampedDelay(policy, attempt) + jitter)
      else ClampedDelay(policy, attempt)
  }

  function Spread(policy: Policy): int {
    if Effective(policy).maxJitter > 0 then Effective(policy).maxJitter else 0
  }

  predicate InWindow(policy: Policy, attempt: int, delay: int) {
    ClampedDelay(policy, attempt) - Spread(policy) <= delay <= ClampedDelay(policy, attempt) + Spread(policy)
  }

  // No 64-bit sum of the schedule entry and a jitter wraps.
  predicate WindowFits(policy: Policy, attempt: int) {
    Index(Effective(policy), attempt) == 0
    || (Int64(ClampedDelay(policy, attempt) - Spread(policy)) && Int64(ClampedDelay(policy, attempt) + Spread(policy)))
  }

  // A policy's retries stay within MaxJitter of the clamped delay, for every hash
  // of a job and attempt number, exactly when the window around the delay does not wrap.
  lemma DelayStaysInWindowExactly(policy: Policy, attempt: int)
    requires policy.Valid()
    ensures WindowFits(policy, attempt)
            <==> forall hash: nat :: hash < TWO_64 ==> InWindow(policy, attempt, NextDelay(policy, hash, attempt))
  {
    if WindowFits(policy, attempt) {
      forall hash: nat
        ensures InWindow(policy, attempt, NextDelay(policy, hash, attempt))
      {
        DelayIsNearItsSchedule(policy, hash, attempt);
      }
    } else {
      var hash := WrappedDelay(policy, attempt);
      assert !InWindow(policy, attempt, NextDelay(policy, hash, attempt));
    }
  }

  lemma DelayIsNearItsSchedule(policy: Policy, hash: nat, attempt: int)
    requires policy.Valid() && WindowFits(policy, attempt)
    ensures InWindow(policy, attempt, NextDelay(policy, hash, attempt))
  {
    var maximum := Effective(policy).maxJitter;
    if maximum > 0 {
      JitterIsBounded(hash, maximum);
      JitteredFits(policy, attempt, DeterministicJitter(hash, maximum));
    }
  }

  lemma JitteredFits(policy: Policy, attempt: int, jitter: int)
    requires policy.Valid() && -Spread(policy) <= jitter <= Spread(policy) && WindowFits(policy, attempt)
    ensures InWindow(policy, attempt, Jittered(policy, attempt, jitter))
  {
  }

  lemma WrappedDelay(policy: Policy, attempt: int) returns (hash: nat)
    requires policy.Valid() && !WindowFits(policy, attempt)
    ensures hash < TWO_64 && !InWindow(policy, attempt, NextDelay(policy, hash, attempt))
  {
    var delay, maximum := ClampedDelay(policy, attempt), Effective(policy).maxJitter;
    var jitter := if Int64(delay + maximum) then -maximum else maximum;
    hash := EveryJitterIsDrawn(jitter, maximum);
    JitteredWraps(policy, attempt, jitter);
  }

  lemma JitteredWraps(policy: Policy, attempt: int, jitter: int)
    requires policy.Valid() && -Spread(policy) <= jitter <= Spread(policy)
    requires Index(Effective(policy), attempt) > 0 && !Int64(ClampedDelay(policy, attempt) + jitter)
    ensures !InWindow(policy, attempt, Jittered(policy, attempt, jitter))
  {
  }

  // A last delay at the end of the range: some job is retried in the distant past.
  lemma LongestDelayWraps() returns (hash: nat)
    ensures var policy := Policy([0, TWO_63 - 1], SECOND);
      policy.Valid() && hash < TWO_64 && !InWindow(policy, 1, NextDelay(policy, hash, 1))
  {
    var policy := Policy([0, TWO_63 - 1], SECOND);
    hash := WrappedDelay(policy, 1);
  }

  // --- The default schedule ------------------------------------------------

  function LeastDelay(attempt: nat): int {
    if attempt == 0 then 0 else ClampedDelay(DEFAULT, attempt) - 30 * SECOND
  }

  lemma DefaultDelayWindow(hash: nat, attempt: nat)
    ensures attempt == 0 ==> NextDelay(DEFAULT, hash, attempt) == 0
    ensures attempt > 0 ==> LeastDelay(attempt) <= NextDelay(DEFAULT, hash, attempt)
                          <= ClampedDelay(DEFAULT, attempt) + 30 * SECOND
    ensures attempt > 0 ==> 30 * SECOND <= NextDelay(DEFAULT, hash, attempt)
  {
    DelayIsNearItsSchedule(DEFAULT, hash, attempt);
  }

  // The windows of attempts 1 to 5 are disjoint and increasing.
  lemma DefaultWindowsIncrease(a: nat, b: nat, hashA: nat, hashB: nat)
    requires 1 <= a < b <= 5
    ensures NextDelay(DEFAULT, hashA, a) < NextDelay(DEFAULT, hashB, b)
  {
    DefaultDelayWindow(hashA, a);
    DefaultDelayWindow(hashB, b);
  }

  // The least total wait of the first n attempts.
  function LeastWait(n: nat): int {
    if n == 0 then 0 else LeastWait(n - 1) + LeastDelay(n)
  }

  lemma {:induction false} LeastWaitClosedForm(n: nat)
    requires n >= 4
    ensures LeastWait(n) == 81 * MINUTE + (n - 4) * 6 * HOUR - n * 30 * SECOND
  {
    if n == 4 {
      assert LeastWait(1) == MINUTE - 30 * SECOND;
      assert LeastWait(2) == 6 * MINUTE - 60 * SECOND;
      assert LeastWait(3) == 21 * MINUTE - 90 * SECOND;
    } else {
      LeastWaitClosedForm(n - 1);
    }
  }
}
