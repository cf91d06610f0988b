/** Retrying an operation with bounded, jittered backoff. Delays are reals. */
module RetryBackoff {
  import opened Common

  datatype RetryPolicy = RetryPolicy(maxAttempts: int, baseDelay: real, maxDelay: real, jitter: real)

  /** The caller's verdict on an exception; asking for it may itself raise. */
  datatype Verdict = Retryable | Final | VerdictRaises

  /** What one call of the operation does. */
  datatype Outcome = Returns(value: int) | Raises(error: int, verdict: Verdict)

  /** What happens between two calls: the callback or the sleep may raise, or be cancelled. */
  datatype Pause = Slept | CallbackRaises | SleepBreaks

  /** How it all ends: with an outcome of the operation, or with what the verdict or a pause raised. */
  datatype Ending = Ended(outcome: Outcome) | VerdictBroke | Broken(pause: Pause)

  predicate IsRetryable(o: Outcome) {
    o.Raises? && o.verdict.Retryable?
  }

  function MinReal(a: real, b: real): real {
    if a <= b then a else b
  }

  function MaxReal(a: real, b: real): (r: real)
    ensures r >= a && r >= b && (r == a || r == b)
  {
    if a <= b then b else a
  }

  function Pow2(n: nat): real {
    if n == 0 then 1.0 else 2.0 * Pow2(n - 1)
  }

  /** `base` doubled `k` times, which is base * 2^k. */
  function Doubled(base: real, k: nat): real {
    if k == 0 then base else 2.0 * Doubled(base, k - 1)
  }

  function NominalDelay(policy: RetryPolicy, attempt: nat): real
    requires attempt >= 1
  {
    MinReal(policy.maxDelay, Doubled(policy.baseDelay, attempt - 1))
  }

  /** The delay after a failed attempt, for a random draw in [0, 1). */
  function BackoffDelay(policy: RetryPolicy, attempt: nat, draw: real): real
    requires attempt >= 1
  {
    var delay := NominalDelay(policy, attempt);
    if policy.jitter <= 0.0 then delay else Jittered(delay, delay * policy.jitter, draw)
  }

  function Jittered(delay: real, window: real, draw: real): real {
    MaxReal(0.0, delay - window + draw * window * 2.0)
  }

  function Attempts(policy: RetryPolicy): nat {
    Max(1, policy.maxAttempts)
  }

  /** The sleeps are the backoff delays after the first, second, ... failed attempt. */
  predicate SleptFor(policy: RetryPolicy, draws: seq<real>, sleeps: seq<real>)
    decreases |sleeps|
  {
    sleeps == [] ||
    var n := |sleeps| - 1;
    n < |draws| && sleeps[n] == BackoffDelay(policy, n + 1, draws[n]) && SleptFor(policy, draws, sleeps[..n])
  }

  /** Calls the operation until it returns, raises something not retryable, the attempts run out, or a verdict
      or a pause breaks, and sleeps once between consecutive calls. `outcomes`, `pauses` and `draws` are what
      the world supplies; `sleeps` are the delays of the sleeps that were begun. After the last attempt nobody
      asks for a verdict. */
  method RetryAsync(policy: RetryPolicy, outcomes: seq<Outcome>, pauses: seq<Pause>, draws: seq<real>)
      returns (result: Ending, calls: nat, sleeps: seq<real>)
    requires |outcomes| == |pauses| == |draws| == Attempts(policy)
    ensures 1 <= calls <= Attempts(policy)
    ensures forall i :: 0 <= i < calls - 1 ==> IsRetryable(outcomes[i]) && pauses[i].Slept?
    ensures result.Ended? ==>
              && result.outcome == outcomes[calls - 1] && |sleeps| == calls - 1
              && (calls == Attempts(policy) || result.outcome.Returns? || result.outcome.verdict.Final?)
    ensures result.VerdictBroke? ==>
              && outcomes[calls - 1].Raises? && outcomes[calls - 1].verdict.VerdictRaises?
              && calls < Attempts(policy) && |sleeps| == calls - 1
    ensures result.Broken? ==>
              && IsRetryable(outcomes[calls - 1]) && calls < Attempts(policy)
              && result.pause == pauses[calls - 1] && !result.pause.Slept?
              && |sleeps| == if result.pause.SleepBreaks? then calls else calls - 1
    ensures SleptFor(policy, draws, sleeps)
  {
    var attempts := Attempts(policy);
    sleeps := [];
    var attempt := 1;
    result := Ended(outcomes[0]);
    while attempt <= attempts
      invariant 1 <= attempt <= attempts
      invariant |sleeps| == attempt - 1 && SleptFor(policy, draws, sleeps)
      invariant forall i :: 0 <= i < attempt - 1 ==> IsRetryable(outcomes[i]) && pauses[i].Slept?
    {
      var outcome := outcomes[attempt - 1];
      result := Ended(outcome);
      if outcome.Returns? {
        return result, attempt, sleeps;
      }
      if attempt >= attempts {
        break;
      }
      if outcome.verdict.VerdictRaises? {
        return VerdictBroke, attempt, sleeps;
      }
      if outcome.verdict.Final? {
        break;
      }
      var delay, pause := BackoffDelay(policy, attempt, draws[attempt - 1]), pauses[attempt - 1];
      if pause.CallbackRaises? {
        return Broken(pause), attempt, sleeps;
      }
      assert (sleeps + [delay])[..|sleeps|] == sleeps;
      sleeps := sleeps + [delay];
      if pause.SleepBreaks? {
        return Broken(pause), attempt, sleeps;
      }
      attempt := attempt + 1;
    }
    calls := attempt;
  }

  // ---------------------------------------------------------------------------
  // The budget
  // ---------------------------------------------------------------------------

  function Total(sleeps: seq<real>): real {
    if sleeps == [] then 0.0 else Total(sleeps[..|sleeps| - 1]) + sleeps[|sleeps| - 1]
  }

  /** The nominal delays after the first `k` attempts. */
  function Nominals(policy: RetryPolicy, k: nat): seq<real> {
    if k == 0 then [] else Nominals(policy, k - 1) + [NominalDelay(policy, k)]
  }

  /** The most that the first n - 1 nominal delays can add up to. */
  function MostNominal(policy: RetryPolicy, n: nat): real
    requires n >= 1
  {
    MinReal(policy.maxDelay * (n - 1) as real, policy.baseDelay * (Pow2(n - 1) - 1.0))
  }

  function Extra(jitter: real): real {
    if jitter < 0.0 then 0.0 else jitter
  }

  ghost predicate Draws(draws: seq<real>) {
    forall i :: 0 <= i < |draws| ==> 0.0 <= draws[i] < 1.0
  }

  lemma Product(a: real, b: real)
    requires a >= 0.0 && b >= 0.0
    ensures a * b >= 0.0
  {
  }

  lemma Distribute(a: real, b: real, c: real)
    ensures a * (b + c) == a * b + a * c
  {
  }

  lemma Scale(a: real, b: real, c: real)
    requires a >= 0.0 && b <= c
    ensures a * b <= a * c
  {
    Product(a, c - b);
    Distribute(a, b, c - b);
  }

  lemma Shrink(draw: real, window: real)
    requires window >= 0.0 && 0.0 <= draw < 1.0
    ensures draw * window <= window
  {
    Scale(window, draw, 1.0);
  }

  lemma JitteredBound(delay: real, window: real, draw: real)
    requires delay >= 0.0 && window >= 0.0 && 0.0 <= draw < 1.0
    ensures 0.0 <= Jittered(delay, window, draw) <= delay + window
  {
    Shrink(draw, window);
  }

  // Sums of at most `cap` each, without products.

  function Times(cap: real, k: nat): real {
    if k == 0 then 0.0 else Times(cap, k - 1) + cap
  }

  lemma {:induction false} TimesIsProduct(cap: real, k: nat)
    ensures Times(cap, k) == cap * k as real
  {
    if k > 0 {
      TimesIsProduct(cap, k - 1);
      Distribute(cap, (k - 1) as real, 1.0);
    }
  }

  lemma {:induction false} DoubledIsProduct(base: real, k: nat)
    ensures Doubled(base, k) == base * Pow2(k)
  {
    if k > 0 {
      DoubledIsProduct(base, k - 1);
      Distribute(base, Pow2(k - 1), Pow2(k - 1));
    }
  }

  lemma {:induction false} TimesGrows(cap: real, a: nat, b: nat)
    requires cap >= 0.0 && a <= b
    ensures 0.0 <= Times(cap, a) <= Times(cap, b)
  {
    if b > 0 {
      if a < b { TimesGrows(cap, a, b - 1); } else { TimesGrows(cap, a - 1, b - 1); }
    }
  }

  lemma {:induction false} DoubledGrows(base: real, a: nat, b: nat)
    requires base >= 0.0 && a <= b
    ensures base <= Doubled(base, a) <= Doubled(base, b)
  {
    if b > 0 {
      if a < b { DoubledGrows(base, a, b - 1); } else { DoubledGrows(base, a - 1, b - 1); }
    }
  }

  lemma NominalBounds(policy: RetryPolicy, attempt: nat)
    requires attempt >= 1 && policy.baseDelay >= 0.0 && policy.maxDelay >= 0.0
    ensures 0.0 <= NominalDelay(policy, attempt) <= policy.maxDelay
    ensures NominalDelay(policy, attempt) <= Doubled(policy.baseDelay, attempt - 1)
  {
    DoubledGrows(policy.baseDelay, 0, attempt - 1);
  }

  lemma NominalsAppend(policy: RetryPolicy, k: nat)
    ensures Total(Nominals(policy, k + 1)) == Total(Nominals(policy, k)) + NominalDelay(policy, k + 1)
  {
    var init, all := Nominals(policy, k), Nominals(policy, k + 1);
    assert all == init + [NominalDelay(policy, k + 1)];
    assert all[..|all| - 1] == init;
  }

  lemma {:induction false} NominalsBound(policy: RetryPolicy, k: nat)
    requires policy.baseDelay >= 0.0 && policy.maxDelay >= 0.0
    ensures Total(Nominals(policy, k)) <= Times(policy.maxDelay, k)
    ensures Total(Nominals(policy, k)) <= Doubled(policy.baseDelay, k) - policy.baseDelay
  {
    if k > 0 {
      NominalsBound(policy, k - 1);
      NominalBounds(policy, k);
      NominalsAppend(policy, k - 1);
    }
  }

  lemma {:induction false} MostInSums(policy: RetryPolicy, n: nat)
    requires n >= 1
    ensures MostNominal(policy, n)
         == MinReal(Times(policy.maxDelay, n - 1), Doubled(policy.baseDelay, n - 1) - policy.baseDelay)
  {
    TimesIsProduct(policy.maxDelay, n - 1);
    DoubledIsProduct(policy.baseDelay, n - 1);
    Distribute(policy.baseDelay, Pow2(n - 1), -1.0);
  }

  lemma MostIsLargest(policy: RetryPolicy, k: nat, n: nat)
    requires policy.baseDelay >= 0.0 && policy.maxDelay >= 0.0 && k < n
    ensures Total(Nominals(policy, k)) <= MostNominal(policy, n)
  {
    NominalsBound(policy, k);
    TimesGrows(policy.maxDelay, k, n - 1);
    DoubledGrows(policy.baseDelay, k, n - 1);
    MostInSums(policy, n);
  }

  lemma SleepBound(policy: RetryPolicy, attempt: nat, draw: real)
    requires attempt >= 1 && policy.baseDelay >= 0.0 && policy.maxDelay >= 0.0 && 0.0 <= draw < 1.0
    ensures 0.0 <= BackoffDelay(policy, attempt, draw)
    ensures BackoffDelay(policy, attempt, draw)
         <= NominalDelay(policy, attempt) + Extra(policy.jitter) * NominalDelay(policy, attempt)
  {
    var delay, extra := NominalDelay(policy, attempt), Extra(policy.jitter);
    NominalBounds(policy, attempt);
    Product(extra, delay);
    if policy.jitter > 0.0 {
      assert delay * policy.jitter == extra * delay;
      JitteredBound(delay, delay * policy.jitter, draw);
    }
  }

  lemma AddBound(extra: real, total: real, delay: real, slept: real, sleep: real)
    requires slept <= total + extra * total && sleep <= delay + extra * delay
    ensures slept + sleep <= (total + delay) + extra * (total + delay)
  {
    Distribute(extra, total, delay);
  }

  /** Each sleep exceeds its nominal delay by at most the factor `extra`. */
  ghost predicate Capped(sleeps: seq<real>, nominal: seq<real>, extra: real)
    decreases |sleeps|
  {
    |sleeps| == |nominal| &&
    (sleeps == [] ||
     var n := |sleeps| - 1;
     sleeps[n] <= nominal[n] + extra * nominal[n] && Capped(sleeps[..n], nominal[..n], extra))
  }

  lemma {:induction false} SleptIsCapped(policy: RetryPolicy, draws: seq<real>, sleeps: seq<real>)
    requires policy.baseDelay >= 0.0 && policy.maxDelay >= 0.0 && Draws(draws) && SleptFor(policy, draws, sleeps)
    ensures Capped(sleeps, Nominals(policy, |sleeps|), Extra(policy.jitter))
  {
    if sleeps != [] {
      var n := |sleeps| - 1;
      SleptIsCapped(policy, draws, sleeps[..n]);
      SleepBound(policy, n + 1, draws[n]);
      assert Nominals(policy, n + 1)[..n] == Nominals(policy, n);
    }
  }

  lemma {:induction false} CappedTotal(sleeps: seq<real>, nominal: seq<real>, extra: real)
    requires Capped(sleeps, nominal, extra)
    ensures Total(sleeps) <= Total(nominal) + extra * Total(nominal)
  {
    if sleeps != [] {
      var n := |sleeps| - 1;
      CappedTotal(sleeps[..n], nominal[..n], extra);
      AddBound(extra, Total(nominal[..n]), nominal[n], Total(sleeps[..n]), sleeps[n]);
    }
  }

  lemma Stretch(slept: real, extra: real, total: real, most: real)
    requires extra >= 0.0 && total <= most && slept <= total + extra * total
    ensures slept <= (1.0 + extra) * most
  {
    Scale(extra, total, most);
    Distribute(most, 1.0, extra);
  }

  lemma CappedWithin(sleeps: seq<real>, nominal: seq<real>, extra: real, most: real)
    requires Capped(sleeps, nominal, extra) && extra >= 0.0 && Total(nominal) <= most
    ensures Total(sleeps) <= (1.0 + extra) * most
  {
    CappedTotal(sleeps, nominal, extra);
    Stretch(Total(sleeps), extra, Total(nominal), most);
  }

  lemma {:induction false} BudgetWithin(policy: RetryPolicy, draws: seq<real>, sleeps: seq<real>, most: real)
    requires policy.baseDelay >= 0.0 && policy.maxDelay >= 0.0 && Draws(draws) && SleptFor(policy, draws, sleeps)
    requires Total(Nominals(policy, |sleeps|)) <= most
    ensures Total(sleeps) <= (1.0 + Extra(policy.jitter)) * most
  {
    SleptIsCapped(policy, draws, sleeps);
    CappedWithin(sleeps, Nominals(policy, |sleeps|), Extra(policy.jitter), most);
  }

  /** The whole budget: however the operation behaves, with non-negative delays the sleeps of one retried
      operation with n attempts add up to at most
      (1 + max(0, jitter)) * min(maxDelay * (n - 1), baseDelay * (2^(n-1) - 1)). */
  lemma {:induction false} RetryBudget(policy: RetryPolicy, draws: seq<real>, sleeps: seq<real>)
    requires policy.baseDelay >= 0.0 && policy.maxDelay >= 0.0
    requires |sleeps| <= Attempts(policy) - 1 && Draws(draws) && SleptFor(policy, draws, sleeps)
    ensures Total(sleeps) <= (1.0 + Extra(policy.jitter)) * MostNominal(policy, Attempts(policy))
  {
    MostIsLargest(policy, |sleeps|, Attempts(policy));
    BudgetWithin(policy, draws, sleeps, MostNominal(policy, Attempts(policy)));
  }

  // ---------------------------------------------------------------------------
  // Every sleep
  // ---------------------------------------------------------------------------

  lemma {:induction false} SleptIff(policy: RetryPolicy, draws: seq<real>, sleeps: seq<real>)
    ensures SleptFor(policy, draws, sleeps) <==>
            |sleeps| <= |draws| &&
            forall k :: 0 <= k < |sleeps| ==> sleeps[k] == BackoffDelay(policy, k + 1, draws[k])
  {
    if sleeps != [] {
      var n := |sleeps| - 1;
      SleptIff(policy, draws, sleeps[..n]);
    }
  }

  /** The delay after `k` earlier ones, before jitter: base * 2^k, but at most the maximum. */
  lemma NominalIs(policy: RetryPolicy, k: nat)
    ensures var doubled := policy.baseDelay * Pow2(k);
            NominalDelay(policy, k + 1) == if policy.maxDelay < doubled then policy.maxDelay else doubled
  {
    DoubledIsProduct(policy.baseDelay, k);
  }

  /** Every sleep of a retried operation: without jitter it is the delay itself. */
  lemma SleepIs(policy: RetryPolicy, draws: seq<real>, sleeps: seq<real>, k: nat)
    requires SleptFor(policy, draws, sleeps) && k < |sleeps|
    ensures k < |draws|
    ensures var doubled := policy.baseDelay * Pow2(k);
            var delay := if policy.maxDelay < doubled then policy.maxDelay else doubled;
            && (policy.jitter <= 0.0 ==> sleeps[k] == delay)
            && (policy.jitter > 0.0 ==> sleeps[k] == BackoffDelay(policy, k + 1, draws[k]))
  {
    SleptIff(policy, draws, sleeps);
    NominalIs(policy, k);
  }

  predicate Gives(policy: RetryPolicy, k: nat, draw: real, value: real) {
    0.0 <= draw < 1.0 && BackoffDelay(policy, k + 1, draw) == value
  }

  /** Whether some draw makes the delay after `k` earlier ones `value`. */
  ghost predicate CanSleep(policy: RetryPolicy, k: nat, value: real) {
    exists draw :: Gives(policy, k, draw, value)
  }

  lemma Quotient(a: real, b: real)
    requires b > 0.0 && 0.0 <= a < b
    ensures 0.0 <= a / b < 1.0
  {
    var q := a / b;
    assert q * b == a;
    if q >= 1.0 {
      Scale(b, 1.0, q);
    }
  }

  lemma DrawFor(delay: real, window: real, value: real) returns (draw: real)
    requires window > 0.0 && delay - window <= value < delay + window && value >= 0.0
    ensures 0.0 <= draw < 1.0 && Jittered(delay, window, draw) == value
  {
    draw := (value - delay + window) / (2.0 * window);
    assert draw * (2.0 * window) == value - delay + window;
    assert draw * (2.0 * window) == draw * window * 2.0;
    Quotient(value - delay + window, 2.0 * window);
  }

  lemma DrawWithin(delay: real, window: real, draw: real)
    requires window > 0.0 && delay > 0.0 && 0.0 <= draw < 1.0
    ensures MaxReal(0.0, delay - window) <= Jittered(delay, window, draw) < delay + window
  {
    Product(draw, window);
    assert (1.0 - draw) * window > 0.0;
    assert (1.0 - draw) * window == window - draw * window;
  }

  lemma JitteredFrom(policy: RetryPolicy, k: nat, draw: real)
    requires policy.jitter > 0.0
    ensures var delay := NominalDelay(policy, k + 1);
            BackoffDelay(policy, k + 1, draw) == Jittered(delay, delay * policy.jitter, draw)
  {
  }

  lemma ZeroDraw(delay: real, window: real)
    ensures Jittered(delay, window, 0.0) == MaxReal(0.0, delay - window)
  {
  }

  lemma Reaches(policy: RetryPolicy, k: nat, value: real, delay: real, window: real) returns (draw: real)
    requires policy.jitter > 0.0 && NominalDelay(policy, k + 1) == delay && window == delay * policy.jitter > 0.0
    requires 0.0 <= value && delay - window <= value < delay + window
    ensures Gives(policy, k, draw, value)
  {
    draw := DrawFor(delay, window, value);
    JitteredFrom(policy, k, draw);
  }

  lemma StaysWithin(policy: RetryPolicy, k: nat, draw: real, value: real, delay: real, window: real)
    requires policy.jitter > 0.0 && NominalDelay(policy, k + 1) == delay > 0.0
    requires window == delay * policy.jitter > 0.0 && Gives(policy, k, draw, value)
    ensures 0.0 <= value && delay - window <= value < delay + window
  {
    DrawWithin(delay, window, draw);
    JitteredFrom(policy, k, draw);
  }

  lemma Positive(a: real, b: real)
    requires a > 0.0 && b > 0.0
    ensures a * b > 0.0
  {
  }

  lemma JitteredRange(policy: RetryPolicy, k: nat, value: real, delay: real, window: real)
    requires policy.jitter > 0.0 && NominalDelay(policy, k + 1) == delay > 0.0
    requires window == delay * policy.jitter > 0.0
    ensures CanSleep(policy, k, value) <==> 0.0 <= value && delay - window <= value < delay + window
    ensures BackoffDelay(policy, k + 1, 0.0) == MaxReal(0.0, delay - window)
  {
    JitteredFrom(policy, k, 0.0);
    ZeroDraw(delay, window);
    if 0.0 <= value && delay - window <= value < delay + window {
      var draw := Reaches(policy, k, value, delay, window);
    }
    if CanSleep(policy, k, value) {
      var draw :| Gives(policy, k, draw, value);
      StaysWithin(policy, k, draw, value, delay, window);
    }
  }

  lemma NominalPositive(policy: RetryPolicy, k: nat)
    requires policy.baseDelay > 0.0 && policy.maxDelay > 0.0
    ensures NominalDelay(policy, k + 1) > 0.0
  {
    DoubledGrows(policy.baseDelay, 0, k);
  }

  /** With jitter, what was base * 2^k, at most the maximum, becomes anything from delay * (1 - jitter) up to but
      not including delay * (1 + jitter), negative delays left out, and nothing else; a draw of zero gives the
      least. */
  lemma CanSleepIff(policy: RetryPolicy, k: nat, value: real, delay: real)
    requires policy.jitter > 0.0 && policy.baseDelay > 0.0 && policy.maxDelay > 0.0
    requires delay == var doubled := policy.baseDelay * Pow2(k);
                      if policy.maxDelay < doubled then policy.maxDelay else doubled
    ensures CanSleep(policy, k, value) <==>
            0.0 <= value && delay - delay * policy.jitter <= value < delay + delay * policy.jitter
    ensures BackoffDelay(policy, k + 1, 0.0) == MaxReal(0.0, delay - delay * policy.jitter)
  {
    NominalIs(policy, k);
    NominalPositive(policy, k);
    Positive(delay, policy.jitter);
    JitteredRange(policy, k, value, delay, delay * policy.jitter);
  }
}
