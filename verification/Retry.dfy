/** Retrying a call: the attempt loop and the exponential delays between attempts. */
module Retry {
  import opened Common

  datatype Failure = Failure(code: Code, detail: string)

  /**
    The outside world of one run, by attempt number from 1: what the call
    returns, whether the context is found cancelled before it, how long the
    pause after it is, and whether cancellation cuts that pause short.
   */
  datatype Attempts = Attempts(outcome: nat -> Option<Failure>, cancelled: nat -> bool, pause: nat -> int, cut: nat -> bool)

  function Limit(maxAttempts: int): (n: nat)
    ensures n >= 1
  {
    if maxAttempts < 1 then 3 else maxAttempts
  }

  const CANCELLED := Failure(Canceled, "retry: context canceled")

  /** The run ends with attempt k. */
  predicate Ends(n: nat, retryable: Failure -> bool, a: Attempts, k: nat) {
    || a.cancelled(k)
    || a.outcome(k) == None
    || k == n
    || !retryable(a.outcome(k).value)
    || (a.pause(k) > 0 && a.cut(k))
  }

  /** Attempt k is the first one that ends the run. */
  ghost predicate Last(n: nat, retryable: Failure -> bool, a: Attempts, k: nat) {
    1 <= k <= n && Ends(n, retryable, a, k) && forall j :: 1 <= j < k ==> !Ends(n, retryable, a, j)
  }

  function Verdict(n: nat, retryable: Failure -> bool, a: Attempts, k: nat): Option<Failure> {
    if a.cancelled(k) then Some(CANCELLED)
    else if a.outcome(k) == None || k == n || !retryable(a.outcome(k).value) then a.outcome(k)
    else Some(CANCELLED)
  }

  /** The first ending attempt, none before k ending the run. */
  function EndingFrom(n: nat, retryable: Failure -> bool, a: Attempts, k: nat): (last: nat)
    requires 1 <= k <= n && forall j :: 1 <= j < k ==> !Ends(n, retryable, a, j)
    ensures Last(n, retryable, a, last)
    decreases n - k
  {
    if Ends(n, retryable, a, k) then k else EndingFrom(n, retryable, a, k + 1)
  }

  function Ending(n: nat, retryable: Failure -> bool, a: Attempts): (last: nat)
    requires n >= 1
    ensures Last(n, retryable, a, last)
  {
    EndingFrom(n, retryable, a, 1)
  }

  /** What a run reports. */
  function Outcome(n: nat, retryable: Failure -> bool, a: Attempts): Option<Failure>
    requires n >= 1
  {
    Verdict(n, retryable, a, Ending(n, retryable, a))
  }

  /** How often a run calls; its calls are attempts 1, 2, and so on. */
  function Calls(n: nat, retryable: Failure -> bool, a: Attempts): nat
    requires n >= 1
  {
    var last := Ending(n, retryable, a);
    if a.cancelled(last) then last - 1 else last
  }

  method Do(maxAttempts: int, retryable: Failure -> bool, a: Attempts) returns (r: Option<Failure>, calls: nat)
    ensures r == Outcome(Limit(maxAttempts), retryable, a)
    ensures calls == Calls(Limit(maxAttempts), retryable, a)
  {
    var attempts := maxAttempts;
    if attempts < 1 {
      attempts := 3;
    }
    calls := 0;
    r := None;
    ghost var last := Ending(attempts, retryable, a);
    var attempt := 1;
    while attempt <= attempts
      invariant attempt <= attempts && calls == attempt - 1
      invariant forall j :: 1 <= j < attempt ==> !Ends(attempts, retryable, a, j)
    {
      if a.cancelled(attempt) {
        LastUnique(attempts, retryable, a, attempt, last);
        return Some(CANCELLED), calls;
      }
      r := a.outcome(attempt);
      calls := calls + 1;
      if r == None {
        LastUnique(attempts, retryable, a, attempt, last);
        return;
      }
      if attempt == attempts || !retryable(r.value) {
        LastUnique(attempts, retryable, a, attempt, last);
        break;
      }
      if a.pause(attempt) > 0 && a.cut(attempt) {
        LastUnique(attempts, retryable, a, attempt, last);
        return Some(CANCELLED), calls;
      }
      attempt := attempt + 1;
    }
  }

  lemma LastUnique(n: nat, retryable: Failure -> bool, a: Attempts, j: nat, k: nat)
    requires Last(n, retryable, a, j) && Last(n, retryable, a, k)
    ensures j == k
  {}

  /** After attempt j another one follows, if any are left: it failed in a retryable way and nothing was cancelled. */
  ghost predicate GoesOn(retryable: Failure -> bool, a: Attempts, j: nat) {
    !a.cancelled(j) && a.outcome(j).Some? && retryable(a.outcome(j).value) && !(a.pause(j) > 0 && a.cut(j))
  }

  /**
    Attempt k is reached when all before it go on, and the run ends there when it
    does not go on or is the last allowed. A context found cancelled before the
    call, or during the pause after a failure worth retrying, is what is reported;
    anything else is what the call returned.
   */
  lemma DecidedBy(maxAttempts: int, retryable: Failure -> bool, a: Attempts, k: nat)
    requires var n := if maxAttempts >= 1 then maxAttempts else 3;
             1 <= k <= n && (forall j :: 1 <= j < k ==> GoesOn(retryable, a, j)) && (GoesOn(retryable, a, k) ==> k == n)
    ensures var n := Limit(maxAttempts);
            var interrupted := a.cancelled(k)
                               || (k < n && a.outcome(k).Some? && retryable(a.outcome(k).value) && a.pause(k) > 0 && a.cut(k));
            && Outcome(n, retryable, a) == (if interrupted then Some(CANCELLED) else a.outcome(k))
            && Calls(n, retryable, a) == if a.cancelled(k) then k - 1 else k
  {
    var n := Limit(maxAttempts);
    assert forall j :: 1 <= j < k && GoesOn(retryable, a, j) ==> !Ends(n, retryable, a, j);
    LastUnique(n, retryable, a, k, Ending(n, retryable, a));
  }

  /** Success is reported if and only if some allowed attempt succeeded, every one before it failing in a retryable way, undisturbed. */
  lemma SucceedsExactly(maxAttempts: int, retryable: Failure -> bool, a: Attempts)
    ensures Outcome(Limit(maxAttempts), retryable, a) == None <==>
            exists k :: 1 <= k <= (if maxAttempts >= 1 then maxAttempts else 3)
              && a.outcome(k) == None && !a.cancelled(k) && forall j :: 1 <= j < k ==> GoesOn(retryable, a, j)
  {
    var n := Limit(maxAttempts);
    var last := Ending(n, retryable, a);
    assert forall j :: 1 <= j < last && !Ends(n, retryable, a, j) ==> GoesOn(retryable, a, j);
    if k :| 1 <= k <= n && a.outcome(k) == None && !a.cancelled(k) && forall j :: 1 <= j < k ==> GoesOn(retryable, a, j) {
      DecidedBy(maxAttempts, retryable, a, k);
    }
  }

  // -------------------------------------------------------------------- delays

  /** Durations in nanoseconds; factor as the caller set it. */
  datatype Exponential = Exponential(base: int, max: int, factor: real, jitter: bool) {
    function Base(): (b: int)
      ensures b > 0
    {
      if base <= 0 then 50_000_000 else base
    }

    function Factor(): (f: real)
      ensures f > 1.0
    {
      if factor <= 1.0 then 2.0 else factor
    }

    /** random: what the random source drew, used only under jitter. */
    function Delay(attempt: int, random: real): int {
      var n := if attempt < 1 then 1 else attempt;
      var d := Cap(max, Closed(n - 1));
      (if jitter then random * d else d).Floor
    }

    function Closed(n: nat): real { Base() as real * Pow(Factor(), n) }

    /** The delay before jitter and truncation, by its recurrence. */
    function Grown(n: nat): real {
      Cap(max, if n == 0 then Base() as real else Times(Factor(), Grown(n - 1)))
    }
  }

  function Cap(max: int, d: real): real { if max > 0 && d > max as real then max as real else d }

  function Times(a: real, b: real): real { a * b }

  function Pow(x: real, n: nat): real { if n == 0 then 1.0 else x * Pow(x, n - 1) }

  lemma MulMono(c: real, a: real, b: real)
    requires c >= 0.0 && a <= b
    ensures c * a <= c * b
  {}

  lemma {:induction false} PowGrows(x: real, n: nat)
    requires x > 1.0
    ensures Pow(x, n) >= 1.0 + n as real * (x - 1.0)
    ensures Pow(x, n) >= 1.0
  {
    if n > 0 {
      PowGrows(x, n - 1);
      PowStep(x, Pow(x, n - 1), (n - 1) as real);
    }
  }

  lemma PowStep(x: real, p: real, n: real)
    requires x > 1.0 && n >= 0.0 && p >= 1.0 && p >= 1.0 + n * (x - 1.0)
    ensures x * p >= 1.0 + (n + 1.0) * (x - 1.0) && x * p >= 1.0
  {
    MulMono(x - 1.0, 1.0, p);
    assert x * p == p + (x - 1.0) * p;
    assert (x - 1.0) * 1.0 == x - 1.0;
    assert (n + 1.0) * (x - 1.0) == n * (x - 1.0) + (x - 1.0);
  }

  /** Capping before growing and capping after growing come to the same. */
  lemma CapStep(max: int, f: real, d: real)
    requires f > 1.0 && d > 0.0
    ensures Cap(max, Times(f, Cap(max, d))) == Cap(max, Times(f, d))
    ensures Cap(max, d) <= Cap(max, Times(f, d))
    ensures Cap(max, d) > 0.0
  {
    MulMono(d, 1.0, f);
    assert d <= f * d;
    if max > 0 {
      MulMono(max as real, 1.0, f);
      assert max as real <= f * max as real;
    }
  }

  lemma ClosedStep(e: Exponential, n: nat)
    requires n > 0
    ensures e.Closed(n) == Times(e.Factor(), e.Closed(n - 1))
  {
    Reassociate(e.Factor(), e.Base() as real, Pow(e.Factor(), n - 1));
  }

  lemma Reassociate(f: real, b: real, p: real)
    ensures b * (f * p) == f * (b * p)
  {}

  lemma ClosedGrows(e: Exponential, n: nat)
    ensures e.Closed(n) >= 1.0 + n as real * (e.Factor() - 1.0) && e.Closed(n) >= 1.0
    ensures e.Closed(0) == e.Base() as real
  {
    PowGrows(e.Factor(), n);
    MulMono(Pow(e.Factor(), n), 1.0, e.Base() as real);
  }

  lemma GrownUnfolds(e: Exponential, n: nat)
    ensures n > 0 ==> e.Grown(n) == Cap(e.max, Times(e.Factor(), e.Grown(n - 1)))
    ensures n == 0 ==> e.Grown(n) == Cap(e.max, e.Base() as real)
  {}

  lemma FactorAboveOne(e: Exponential)
    ensures e.Factor() > 1.0
  {}

  lemma CapSteps(max: int, f: real, g: real, c: real)
    requires f > 1.0 && c >= 1.0 && g == Cap(max, c)
    ensures Cap(max, Times(f, g)) == Cap(max, Times(f, c)) && g > 0.0
  {
    CapStep(max, f, c);
  }

  /** Capping the closed form is the same as capping at every step. */
  lemma {:induction false} GrownIsCapped(e: Exponential, n: nat)
    ensures e.Grown(n) == Cap(e.max, e.Closed(n))
    ensures e.Grown(n) > 0.0
  {
    hide *;
    FactorAboveOne(e);
    ClosedGrows(e, n);
    GrownUnfolds(e, n);
    if n > 0 {
      GrownIsCapped(e, n - 1);
      ClosedGrows(e, n - 1);
      CapSteps(e.max, e.Factor(), e.Grown(n - 1), e.Closed(n - 1));
      ClosedStep(e, n);
    }
    CapSteps(e.max, e.Factor(), e.Grown(n), e.Closed(n));
  }

  lemma DelayIsGrown(e: Exponential, attempt: int, random: real)
    ensures var d := e.Grown(if attempt < 1 then 0 else attempt - 1);
            e.Delay(attempt, random) == (if e.jitter then random * d else d).Floor
  {
    GrownIsCapped(e, if attempt < 1 then 0 else attempt - 1);
    hide e.Closed, e.Grown, Cap;
  }

  lemma {:induction false} GrownMonotone(e: Exponential, m: nat, n: nat)
    requires m <= n
    ensures e.Grown(m) <= e.Grown(n)
    decreases n
  {
    if m < n {
      GrownMonotone(e, m, n - 1);
      GrownIsCapped(e, n - 1);
      ClosedGrows(e, n - 1);
      hide e.Closed, Cap;
      CapStep(e.max, e.Factor(), e.Closed(n - 1));
    }
  }

  lemma FloorMono(a: real, b: real)
    requires a <= b
    ensures a.Floor <= b.Floor
  {}

  lemma CapBounds(max: int, d: real)
    ensures max > 0 ==> Cap(max, d) <= max as real
  {}

  lemma Shares(d: real, random: real)
    requires d >= 0.0 && 0.0 <= random < 1.0
    ensures 0.0 <= random * d <= d
    ensures 0 <= (random * d).Floor <= d.Floor
  {
    MulMono(d, random, 1.0);
    MulMono(d, 0.0, random);
    FloorMono(0.0, random * d);
    FloorMono(random * d, d);
  }

  /** Delays never exceed a set maximum, jitter or not, and without jitter never shrink from one attempt to the next. */
  lemma DelaysCappedAndMonotone(e: Exponential, i: int, j: int, random: real)
    requires i <= j && 0.0 <= random < 1.0
    ensures 0 <= e.Delay(i, random)
    ensures e.max > 0 ==> e.Delay(i, random) <= e.max
    ensures !e.jitter ==> e.Delay(i, random) <= e.Delay(j, random)
  {
    hide *;
    var m, n := if i < 1 then 0 else i - 1, if j < 1 then 0 else j - 1;
    DelayIsGrown(e, i, random);
    DelayIsGrown(e, j, random);
    GrownMonotone(e, m, n);
    GrownIsCapped(e, m);
    CapBounds(e.max, e.Closed(m));
    var d := e.Grown(m);
    Shares(d, random);
    FloorMono(d, e.Grown(n));
    FloorMono(0.0, d);
    if e.max > 0 { FloorMono(d, e.max as real); }
  }

  /** However small the factor, a set maximum is reached after finitely many attempts and kept from then on. */
  lemma MaxIsReached(e: Exponential) returns (from: nat)
    requires e.max > 0 && !e.jitter
    ensures forall i: int :: i > from ==> e.Delay(i, 0.0) == e.max
  {
    var f := e.Factor() - 1.0;
    from := (e.max as real / f).Floor + 1;
    assert from as real * f >= e.max as real by {
      MulMono(f, e.max as real / f, from as real);
    }
    forall i: int | i > from ensures e.Delay(i, 0.0) == e.max {
      Reached(e, i - 1, from);
      DelayIsGrown(e, i, 0.0);
    }
  }

  lemma Reached(e: Exponential, n: nat, from: nat)
    requires e.max > 0 && n >= from && from as real * (e.Factor() - 1.0) >= e.max as real
    ensures e.Grown(n) == e.max as real
  {
    ClosedGrows(e, from);
    GrownIsCapped(e, from);
    GrownIsCapped(e, n);
    hide e.Closed, e.Grown;
    GrownMonotone(e, from, n);
  }

  /** base * factor^n, with fifty milliseconds and a factor of two where none is set. */
  lemma GrowsByFactor(e: Exponential, n: nat)
    ensures e.Closed(0) == (if e.base > 0 then e.base else 50_000_000) as real
    ensures e.Closed(n + 1) == Times(if e.factor > 1.0 then e.factor else 2.0, e.Closed(n))
  {
    ClosedGrows(e, 0);
    ClosedStep(e, n + 1);
  }

  function Doubled(b: int, n: nat): int { if n == 0 then b else 2 * Doubled(b, n - 1) }

  /** Without a factor set the delay after attempt 1 is the base, and each later one twice the one before, up to the maximum. */
  lemma DoublingDelays(e: Exponential, attempt: int, random: real)
    requires e.factor <= 1.0 || e.factor == 2.0
    ensures var d := Doubled(if e.base > 0 then e.base else 50_000_000, if attempt < 1 then 0 else attempt - 1);
            var capped := if 0 < e.max < d then e.max else d;
            e.Delay(attempt, random) == if e.jitter then (random * capped as real).Floor else capped
  {
    var n := if attempt < 1 then 0 else attempt - 1;
    ClosedDoubles(e, n);
    hide e.Closed;
  }

  lemma {:induction false} ClosedDoubles(e: Exponential, n: nat)
    requires e.factor <= 1.0 || e.factor == 2.0
    ensures e.Closed(n) == Doubled(if e.base > 0 then e.base else 50_000_000, n) as real
  {
    if n == 0 {
      GrowsByFactor(e, 0);
    } else {
      ClosedDoubles(e, n - 1);
      GrowsByFactor(e, n - 1);
      hide e.Closed;
    }
  }
}
