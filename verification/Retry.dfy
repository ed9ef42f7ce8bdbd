/** When a failed model request is tried again, and how often. */
module Retry {
  import opened Common

  /** What the retry decision reads of a provider error: durations are in seconds. */
  datatype Failure = Failure(retryable: bool, rateLimited: bool, retryAfter: Option<real>)

  datatype Policy = Policy(maxRetries: nat, base: real, cap: real, maxUnhinted: nat)

  predicate ValidPolicy(p: Policy) {
    p.base >= 0.0 && p.cap >= 0.0
  }

  function PowerOfTwo(n: nat): (p: nat)
    ensures p > 0
  {
    if n == 0 then 1 else 2 * PowerOfTwo(n - 1)
  }

  function MinReal(a: real, b: real): real {
    if a <= b then a else b
  }

  function Clamped(random: real): real {
    if random < 0.0 then 0.0 else if random > 1.0 then 1.0 else random
  }

  /** A random part of a delay that doubles with every failure, up to the cap. */
  function Jittered(p: Policy, failures: nat, random: real): real {
    var exponent := Min(Monus(failures, 1), 30);
    Times(MinReal(Times(p.base, PowerOfTwo(exponent) as real), p.cap), Clamped(random))
  }

  function Times(x: real, y: real): real {
    x * y
  }

  function NextDelay(p: Policy, e: Failure, failures: nat, unhinted: nat, random: real): Option<real> {
    if !e.retryable || failures > p.maxRetries then None
    else if e.retryAfter.Some? then Some(MinReal(e.retryAfter.value, p.cap))
    else if e.rateLimited && unhinted > p.maxUnhinted then None
    else Some(Jittered(p, failures, random))
  }

  /** A delay is given exactly while retries are left for a retryable error, and it never exceeds the cap. */
  lemma DelayIsBounded(p: Policy, e: Failure, failures: nat, unhinted: nat, random: real)
    requires ValidPolicy(p)
    ensures var d := NextDelay(p, e, failures, unhinted, random);
            && (d.Some? <==> e.retryable && failures <= p.maxRetries
                             && (e.retryAfter.Some? || !e.rateLimited || unhinted <= p.maxUnhinted))
            && (d.Some? ==> d.value <= p.cap)
            && (d.Some? && e.retryAfter.Some? ==>
                  d.value <= e.retryAfter.value && (d.value == e.retryAfter.value || d.value == p.cap))
            && (d.Some? && e.retryAfter.None? ==> 0.0 <= d.value == Jittered(p, failures, random))
  {
    hide Jittered;
    JitterBounded(p, failures, random);
  }

  lemma JitterBounded(p: Policy, failures: nat, random: real)
    requires ValidPolicy(p)
    ensures 0.0 <= Jittered(p, failures, random) <= p.cap
  {
    hide PowerOfTwo, Monus, Times;
    var factor := PowerOfTwo(Min(Monus(failures, 1), 30)) as real;
    Grows(p.base, factor);
    Scaled(MinReal(Times(p.base, factor), p.cap), Clamped(random));
  }

  lemma Grows(x: real, factor: real)
    requires x >= 0.0 && factor >= 0.0
    ensures Times(x, factor) >= 0.0
  {
  }

  lemma Scaled(x: real, c: real)
    requires x >= 0.0 && 0.0 <= c <= 1.0
    ensures 0.0 <= Times(x, c) <= x
  {
    assert x - x * c == x * (1.0 - c);
  }

  /** The whole delay before a retry, of which a random part is taken. */
  function FullDelay(p: Policy, failures: nat): real {
    Jittered(p, failures, 1.0)
  }

  /** The whole delay starts at the base and doubles with every failure up to the cap; what is taken is its random part. */
  lemma DelayDoubles(p: Policy, failures: nat, random: real)
    requires ValidPolicy(p) && 1 <= failures <= 30
    ensures FullDelay(p, 1) == MinReal(p.base, p.cap)
    ensures FullDelay(p, failures + 1) == MinReal(FullDelay(p, failures) + FullDelay(p, failures), p.cap)
    ensures FullDelay(p, 31 + failures) == FullDelay(p, 31)
    ensures 0.0 <= random <= 1.0 ==> Jittered(p, failures, random) == FullDelay(p, failures) * random
  {
    hide Times;
    var factor := PowerOfTwo(failures - 1) as real;
    assert PowerOfTwo(0) == 1 && PowerOfTwo(failures) == 2 * PowerOfTwo(failures - 1);
    Doubled(p.base, factor);
    Whole(p.base);
    Whole(MinReal(Times(p.base, factor), p.cap));
    Whole(MinReal(Times(p.base, PowerOfTwo(failures) as real), p.cap));
    Whole(MinReal(Times(p.base, 1.0), p.cap));
    IsTimes(MinReal(Times(p.base, factor), p.cap), random);
  }

  lemma Doubled(x: real, factor: real)
    requires x >= 0.0 && factor >= 0.0
    ensures Times(x, 2.0 * factor) == Times(x, factor) + Times(x, factor)
    ensures Times(x, factor) >= 0.0
  {
  }

  lemma Whole(x: real)
    ensures Times(x, 1.0) == x
  {
  }

  lemma IsTimes(x: real, y: real)
    ensures Times(x, y) == x * y
  {
  }

  /** What one try at a request comes to: `Refused` before any attempt, stopped after one, an answer, or a failure. */
  datatype Try<R> = Refused | Answered(response: R) | Failed(error: Failure, stopped: bool, random: real)

  predicate IsUnhinted<R>(t: Try<R>) {
    t.Failed? && t.error.rateLimited && t.error.retryAfter.None?
  }

  /** How many of the first tries were turned down by a rate limit that gave no time. */
  ghost function Unhinted<R>(tries: nat -> Try<R>, n: nat): nat {
    if n == 0 then 0 else Unhinted(tries, n - 1) + if IsUnhinted(tries(n - 1)) then 1 else 0
  }

  /** Another try follows this one: a failure that may pass, with retries left, and not one rate limit too many. */
  ghost predicate IsRetried<R>(p: Policy, tries: nat -> Try<R>, k: nat) {
    && tries(k).Failed? && !tries(k).stopped && tries(k).error.retryable && k < p.maxRetries
    && (IsUnhinted(tries(k)) ==> Unhinted(tries, k + 1) <= p.maxUnhinted)
  }

  /** The first try that no other follows decides; one refused before its attempt counts as none. */
  ghost predicate IsResult<R>(p: Policy, tries: nat -> Try<R>, result: Option<R>, attempts: nat) {
    exists k: nat ::
      && (forall j: nat :: j < k ==> IsRetried(p, tries, j)) && !IsRetried(p, tries, k)
      && (if tries(k).Answered? then result == Some(tries(k).response) else result == None)
      && attempts == if tries(k).Refused? then k else k + 1
  }

  /** The tries decide what a request comes to. */
  lemma ResultIsUnique<R>(p: Policy, tries: nat -> Try<R>, a: Option<R>, m: nat, b: Option<R>, n: nat)
    requires IsResult(p, tries, a, m) && IsResult(p, tries, b, n)
    ensures a == b && m == n
  {
  }

  /**
   Tries a request until it is answered, refused, stopped or given up. No more attempts are made than the retries
   allow, and no more rate-limited ones without a hint than the policy says.
   */
  method Attempts<R>(p: Policy, tries: nat -> Try<R>) returns (result: Option<R>, attempts: nat)
    ensures IsResult(p, tries, result, attempts)
    ensures attempts <= p.maxRetries + 1
    ensures Unhinted(tries, attempts) <= p.maxUnhinted + 1
  {
    result, attempts := None, 0;
    var failures, unhinted := 0, 0;
    while true
      invariant attempts == failures <= p.maxRetries && result.None?
      invariant unhinted == Unhinted(tries, attempts) <= p.maxUnhinted
      invariant forall j: nat :: j < attempts ==> IsRetried(p, tries, j)
      decreases p.maxRetries - failures
    {
      match tries(attempts) {
        case Refused => return;
        case Answered(response) =>
          attempts := attempts + 1;
          result := Some(response);
          return;
        case Failed(error, stopped, random) =>
          attempts := attempts + 1;
          if stopped {
            return;
          }
          failures := failures + 1;
          if error.rateLimited && error.retryAfter.None? {
            unhinted := unhinted + 1;
          }
          if NextDelay(p, error, failures, unhinted, random).None? {
            return;
          }
      }
    }
  }
}
