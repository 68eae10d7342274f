/**
 * Calls to the blockchain connector that are made again after a delay: retryableCall, backoffDelay and
 * matchesRetryCondition in src/tokens/blockchain.service.ts. Times are real numbers.
 */
module RetryLoop {

  /** The regular expression of the condition is not modelled: `matches` says which errors it matches. */
  datatype RetryConfiguration = RetryConfiguration(
    retryBackOffFactor: real, retryBackOffLimit: real, retryBackOffInitial: real,
    retryCondition: string, retriesMax: int)

  datatype Outcome<+T> = Success(response: T) | Failure(error: string)

  datatype CallResult<+T> = Returned(response: T) | Threw(error: string) | GaveUp(attempts: nat)

  type Matcher = (string, string) -> bool

  predicate MatchesRetryCondition(config: RetryConfiguration, matches: Matcher, error: string) {
    config.retryCondition != "" && matches(error, config.retryCondition)
  }

  /** A failure that is to be retried: there is a condition, and it matches the error. */
  predicate Retryable<T>(config: RetryConfiguration, matches: Matcher, outcome: Outcome<T>) {
    outcome.Failure? && config.retryCondition != "" && matches(outcome.error, config.retryCondition)
  }

  function Pow(base: real, n: nat): real {
    if n == 0 then 1.0 else base * Pow(base, n - 1)
  }

  function Min(a: real, b: real): real {
    if a <= b then a else b
  }

  function Uncapped(config: RetryConfiguration, iteration: nat): real {
    config.retryBackOffInitial * Pow(config.retryBackOffFactor, iteration)
  }

  function BackoffDelay(config: RetryConfiguration, iteration: nat): real {
    Min(Uncapped(config, iteration), config.retryBackOffLimit)
  }

  const FOREVER := -1

  /** The wait after the i-th failure; the counter stands still when retries have no maximum. */
  function Wait(config: RetryConfiguration, i: nat): real {
    BackoffDelay(config, if config.retriesMax == FOREVER then 0 else i)
  }

  /** The k-th outcome is the first that is not retried. */
  ghost predicate SettlesAt<T(!new)>(config: RetryConfiguration, matches: Matcher, call: nat -> Outcome<T>, k: nat) {
    !Retryable(config, matches, call(k)) && forall i: nat :: i < k ==> Retryable(config, matches, call(i))
  }

  /** The i-th round is entered and asks for another. */
  predicate Again<T>(config: RetryConfiguration, matches: Matcher, call: nat -> Outcome<T>, i: nat) {
    (config.retriesMax == FOREVER || i <= config.retriesMax) && Retryable(config, matches, call(i))
  }

  /** The loop is still running after k rounds. */
  ghost predicate StillTrying<T(!new)>(config: RetryConfiguration, matches: Matcher, call: nat -> Outcome<T>, k: nat) {
    forall i: nat :: i < k ==> Again(config, matches, call, i)
  }

  lemma FirstIsUnique<T(!new)>(config: RetryConfiguration, matches: Matcher, call: nat -> Outcome<T>, n: nat)
    requires StillTrying(config, matches, call, n)
    ensures forall k: nat :: SettlesAt(config, matches, call, k) ==> k >= n && (!Retryable(config, matches, call(n)) ==> k == n)
  {
    forall k: nat | SettlesAt(config, matches, call, k)
      ensures k >= n && (!Retryable(config, matches, call(n)) ==> k == n)
    {
      assert k < n ==> Again(config, matches, call, k);
    }
  }

  /**
   * The loop, on the outcomes that the calls would have one after the other. With a maximum of n it makes
   * min(k, n) + 1 calls, where the k-th outcome is the first not to be retried, and gives that outcome, or
   * gives up after n + 1. It waits once after each retryable failure, the last one included.
   */
  method RetryableCall<T(!new)>(config: RetryConfiguration, matches: Matcher, call: nat -> Outcome<T>)
    returns (result: CallResult<T>, made: nat, waits: seq<real>)
    requires config.retriesMax == FOREVER ==> exists k: nat :: SettlesAt(config, matches, call, k)
    ensures forall i :: 0 <= i < |waits| ==> waits[i] == Wait(config, i)
    ensures forall k: nat :: SettlesAt(config, matches, call, k) ==>
              if config.retriesMax == FOREVER || k <= config.retriesMax then
                && made == k + 1 && |waits| == k
                && result == (if call(k).Success? then Returned(call(k).response) else Threw(call(k).error))
              else result == GaveUp(made) && made == |waits| == if config.retriesMax < 0 then 0 else config.retriesMax + 1
    ensures (forall i: nat :: i <= config.retriesMax ==> Retryable(config, matches, call(i))) && config.retriesMax != FOREVER ==>
              result == GaveUp(made) && made == |waits| == if config.retriesMax < 0 then 0 else config.retriesMax + 1
  {
    ghost var end: nat := if config.retriesMax == FOREVER then (var k: nat :| SettlesAt(config, matches, call, k); k)
                          else if config.retriesMax < 0 then 0 else config.retriesMax + 1;
    var retries: nat := 0;
    made, waits := 0, [];
    while config.retriesMax == FOREVER || retries <= config.retriesMax
      invariant made == |waits| <= end
      invariant StillTrying(config, matches, call, made)
      invariant retries == if config.retriesMax == FOREVER then 0 else made
      invariant forall i :: 0 <= i < |waits| ==> waits[i] == Wait(config, i)
      decreases end - made
    {
      FirstIsUnique(config, matches, call, made);
      var outcome := call(made);
      made := made + 1;
      if outcome.Success? {
        return Returned(outcome.response), made, waits;
      }
      if !MatchesRetryCondition(config, matches, outcome.error) {
        return Threw(outcome.error), made, waits;
      }
      waits := waits + [BackoffDelay(config, retries)];
      if config.retriesMax != FOREVER {
        retries := retries + 1;
      }
    }
    FirstIsUnique(config, matches, call, made);
    return GaveUp(retries), made, waits;
  }

  lemma {:induction false} Settles<T(!new)>(config: RetryConfiguration, matches: Matcher, call: nat -> Outcome<T>, k: nat)
    requires !Retryable(config, matches, call(k))
    ensures exists j: nat :: j <= k && SettlesAt(config, matches, call, j)
  {
    if i: nat :| i < k && !Retryable(config, matches, call(i)) {
      Settles(config, matches, call, i);
    } else {
      assert SettlesAt(config, matches, call, k);
    }
  }

  /** The loop ends if it has a maximum, and otherwise exactly when some outcome is not to be retried. */
  lemma EndsIff<T(!new)>(config: RetryConfiguration, matches: Matcher, call: nat -> Outcome<T>)
    ensures (exists k: nat :: !StillTrying(config, matches, call, k))
       <==> config.retriesMax != FOREVER || exists k: nat :: SettlesAt(config, matches, call, k)
  {
    if config.retriesMax != FOREVER {
      var n: nat := if config.retriesMax < 0 then 0 else config.retriesMax + 1;
      assert !Again(config, matches, call, n);
      assert !StillTrying(config, matches, call, n + 1);
    } else {
      if k: nat :| !StillTrying(config, matches, call, k) {
        var i: nat :| i < k && !Again(config, matches, call, i);
        Settles(config, matches, call, i);
      }
      if k: nat :| SettlesAt(config, matches, call, k) {
        assert !Again(config, matches, call, k);
        assert !StillTrying(config, matches, call, k + 1);
      }
    }
  }

  /** Without a condition nothing is retried: the first outcome is the result. */
  lemma NoConditionNoRetry<T(!new)>(config: RetryConfiguration, matches: Matcher, call: nat -> Outcome<T>)
    requires config.retryCondition == ""
    ensures SettlesAt(config, matches, call, 0)
  {
  }

  // ---- the waits ----

  /** The terms of a geometric series. */
  ghost predicate Geometric(terms: seq<real>, first: real, factor: real) {
    && (terms != [] ==> terms[0] == first)
    && forall i :: 0 < i < |terms| ==> terms[i] == terms[i - 1] * factor
  }

  lemma {:induction false} TermIsUncapped(config: RetryConfiguration, terms: seq<real>, i: nat)
    requires Geometric(terms, config.retryBackOffInitial, config.retryBackOffFactor) && i < |terms|
    ensures terms[i] == Uncapped(config, i)
  {
    if i > 0 {
      TermIsUncapped(config, terms, i - 1);
      var x, f, p := config.retryBackOffInitial, config.retryBackOffFactor, Pow(config.retryBackOffFactor, i - 1);
      assert x * p * f == x * (f * p);
      assert Uncapped(config, i) == x * (f * p);
    } else {
      assert Uncapped(config, 0) == config.retryBackOffInitial;
    }
  }

  /**
   * With a maximum, the wait after the i-th failure is the i-th term of the geometric series of the initial
   * wait and the factor, but no more than the limit; without one it is always the first term, likewise.
   */
  lemma WaitIsTerm(config: RetryConfiguration, terms: seq<real>, i: nat)
    requires Geometric(terms, config.retryBackOffInitial, config.retryBackOffFactor) && i < |terms|
    ensures var term := if config.retriesMax == -1 then terms[0] else terms[i];
            Wait(config, i) == if term > config.retryBackOffLimit then config.retryBackOffLimit else term
  {
    TermIsUncapped(config, terms, i);
    TermIsUncapped(config, terms, 0);
    hide Uncapped;
  }

  ghost predicate Sensible(config: RetryConfiguration) {
    config.retryBackOffFactor >= 1.0 && config.retryBackOffInitial >= 0.0 && config.retryBackOffLimit >= 0.0
  }

  function Total(config: RetryConfiguration, count: nat): real {
    if count == 0 then 0.0 else Total(config, count - 1) + Wait(config, count - 1)
  }

  function Sum(waits: seq<real>): real {
    if waits == [] then 0.0 else Sum(waits[..|waits| - 1]) + waits[|waits| - 1]
  }

  /** The waits that the loop reports add up to the total. */
  lemma {:induction false} WaitsAddUp(config: RetryConfiguration, waits: seq<real>)
    requires forall i :: 0 <= i < |waits| ==> waits[i] == Wait(config, i)
    ensures Sum(waits) == Total(config, |waits|)
  {
    if waits != [] {
      WaitsAddUp(config, waits[..|waits| - 1]);
    }
  }

  lemma TimesAtLeast(a: real, b: real)
    requires a >= 1.0 && b >= 0.0
    ensures a * b >= b
  {
    assert (a - 1.0) * b >= 0.0;
  }

  lemma {:induction false} PowGrows(base: real, m: nat, n: nat)
    requires base >= 1.0 && m <= n
    ensures 1.0 <= Pow(base, m) <= Pow(base, n)
    decreases n
  {
    if m < n {
      PowGrows(base, m, n - 1);
      TimesAtLeast(base, Pow(base, n - 1));
    } else if n > 0 {
      PowGrows(base, n - 1, n - 1);
      TimesAtLeast(base, Pow(base, n - 1));
    }
  }

  lemma UncappedGrows(config: RetryConfiguration, i: nat, j: nat)
    requires Sensible(config) && i <= j
    ensures 0.0 <= Uncapped(config, i) <= Uncapped(config, j)
  {
    PowGrows(config.retryBackOffFactor, i, j);
    var x, p, q := config.retryBackOffInitial, Pow(config.retryBackOffFactor, i), Pow(config.retryBackOffFactor, j);
    assert x * (q - p) >= 0.0;
    assert x * q == x * p + x * (q - p);
  }

  /** Waits never get shorter and never pass the limit; without a maximum they are all the first one. */
  lemma WaitsGrow(config: RetryConfiguration, i: nat, j: nat)
    requires Sensible(config) && i <= j
    ensures 0.0 <= Wait(config, i) <= Wait(config, j) <= config.retryBackOffLimit
    ensures config.retriesMax == FOREVER ==> Wait(config, i) == Min(config.retryBackOffInitial, config.retryBackOffLimit)
  {
    UncappedGrows(config, i, j);
    UncappedGrows(config, 0, i);
    assert Uncapped(config, 0) == config.retryBackOffInitial;
    hide Uncapped;
  }

  function Multiple(n: nat, x: real): real {
    n as real * x
  }

  lemma OneMore(n: nat, x: real)
    ensures Multiple(n + 1, x) == Multiple(n, x) + x
    ensures Multiple(0, x) == 0.0
  {
  }

  /** The total wait is at most the limit for each retryable failure. */
  lemma {:induction false} TotalBounded(config: RetryConfiguration, count: nat)
    requires Sensible(config)
    ensures 0.0 <= Total(config, count) <= Multiple(count, config.retryBackOffLimit)
  {
    if count > 0 {
      TotalBounded(config, count - 1);
      WaitsGrow(config, count - 1, count - 1);
      OneMore(count - 1, config.retryBackOffLimit);
      hide Multiple, Wait;
    }
  }

  /** The sum of the first terms of a geometric series. */
  function Series(x: real, f: real, count: nat): real {
    if count == 0 then 0.0 else Series(x, f, count - 1) + x * Pow(f, count - 1)
  }

  /** A total of the first terms, where p is the power that the next term has. */
  predicate ClosedForm(total: real, x: real, f: real, p: real) {
    total * (f - 1.0) == x * (p - 1.0)
  }

  lemma ClosedFormNext(total: real, x: real, f: real, p: real)
    requires ClosedForm(total, x, f, p)
    ensures ClosedForm(total + x * p, x, f, f * p)
  {
    var term := x * p;
    assert (total + term) * (f - 1.0) == total * (f - 1.0) + term * (f - 1.0);
    assert term * (f - 1.0) == term * f - term;
    assert x * (p - 1.0) == term - x;
    assert term * f == x * (f * p);
    assert x * (f * p - 1.0) == x * (f * p) - x;
  }

  lemma {:induction false} SeriesClosedForm(x: real, f: real, count: nat)
    ensures ClosedForm(Series(x, f, count), x, f, Pow(f, count))
  {
    if count > 0 {
      hide ClosedForm;
      SeriesClosedForm(x, f, count - 1);
      ClosedFormNext(Series(x, f, count - 1), x, f, Pow(f, count - 1));
    }
  }

  /** Until a wait would pass the limit, the waits are a geometric series. */
  lemma {:induction false} BelowLimit(config: RetryConfiguration, count: nat)
    requires config.retriesMax != FOREVER
    requires forall i: nat :: i < count ==> Uncapped(config, i) <= config.retryBackOffLimit
    ensures Total(config, count) == Series(config.retryBackOffInitial, config.retryBackOffFactor, count)
  {
    if count > 0 {
      BelowLimit(config, count - 1);
    }
  }

  /** The waits follow the geometric series until one would pass the limit, and are the limit from there on. */
  lemma {:induction false} TotalIsCapped(config: RetryConfiguration, count: nat) returns (free: nat)
    requires Sensible(config) && config.retriesMax != FOREVER
    ensures free <= count
    ensures forall i: nat :: i < count ==> (i < free <==> Uncapped(config, i) <= config.retryBackOffLimit)
    ensures Total(config, count) == Series(config.retryBackOffInitial, config.retryBackOffFactor, free)
                                    + Multiple(count - free, config.retryBackOffLimit)
  {
    hide Uncapped, Multiple, Series;
    if count == 0 || Uncapped(config, count - 1) <= config.retryBackOffLimit {
      free := count;
      forall i: nat | i < count ensures Uncapped(config, i) <= config.retryBackOffLimit {
        UncappedGrows(config, i, count - 1);
      }
      BelowLimit(config, count);
      OneMore(0, config.retryBackOffLimit);
    } else {
      free := TotalIsCapped(config, count - 1);
      OneMore(count - 1 - free, config.retryBackOffLimit);
    }
  }

  /** The total wait in closed form, multiplied out to need no division. */
  lemma TotalClosedForm(config: RetryConfiguration, count: nat) returns (free: nat)
    requires Sensible(config) && config.retriesMax != FOREVER
    ensures free <= count
    ensures forall i: nat :: i < count ==> (i < free <==> Uncapped(config, i) <= config.retryBackOffLimit)
    ensures ClosedForm(Total(config, count) - Multiple(count - free, config.retryBackOffLimit), config.retryBackOffInitial,
                       config.retryBackOffFactor, Pow(config.retryBackOffFactor, free))
  {
    hide Uncapped, Pow, Total, Series, ClosedForm, Multiple;
    free := TotalIsCapped(config, count);
    SeriesClosedForm(config.retryBackOffInitial, config.retryBackOffFactor, free);
  }
}
