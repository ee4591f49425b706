/** Waiting for a new container to become healthy: thresholds, growing pauses, a deadline. */
module Health {
  import opened Common

  const SECOND := 1_000_000_000

  datatype Config = Config(successThreshold: int, failureThreshold: int, maxRetries: int, startupTimeout: int)

  function Defaults(cfg: Config): (r: Config)
    ensures r.successThreshold >= 1 && r.failureThreshold >= 1
  {
    Config(if cfg.successThreshold <= 0 then 1 else cfg.successThreshold,
           if cfg.failureThreshold <= 0 then 3 else cfg.failureThreshold,
           if cfg.maxRetries <= 0 then 5 else cfg.maxRetries,
           cfg.startupTimeout)
  }

  function Timeout(cfg: Config): (t: int)
    ensures t > 0
  {
    if cfg.startupTimeout <= 0 then 300 * SECOND else cfg.startupTimeout
  }

  // ----------------------------------------------------------------- one probe

  /** What one probe meets: the dial, building the request, and the response status if one came. */
  datatype Observed = Observed(dialled: bool, built: bool, status: Option<int>)

  datatype Probe = Probe(success: bool, message: string, checkType: string)

  function CheckOnce(o: Observed): (p: Probe)
    ensures p.success <==> o.dialled && (!o.built || o.status.None? || 200 <= o.status.value < 400)
  {
    if !o.dialled then Probe(false, "tcp unreachable", "tcp")
    else if !o.built then Probe(true, "tcp ok", "tcp")
    else match o.status
         case None => Probe(true, "tcp ok, http pending", "readiness")
         case Some(code) => if 200 <= code < 400 then Probe(true, "healthy", "readiness") else Probe(false, "http", "readiness")
  }

  // ------------------------------------------------------------------ the loop

  /** By probe number: what it meets, how long it and everything else but the pause takes, and whether the context is found cancelled before it. */
  datatype Env = Env(start: int, observed: nat -> Observed, spent: nat -> nat, cancelled: nat -> bool)

  /** Pauses double until they reach thirty seconds. */
  function Pause(k: nat): (d: int)
    ensures d >= SECOND
  {
    if k == 0 then SECOND else var p := Pause(k - 1); if p < 30 * SECOND then p * 2 else p
  }

  /** The time when probe k is about to be made. */
  function At(env: Env, k: nat): int {
    if k == 0 then env.start else At(env, k - 1) + env.spent(k - 1) + Pause(k - 1)
  }

  function Probes(env: Env, n: nat): (ps: seq<Probe>)
    ensures |ps| == n && forall k :: 0 <= k < n ==> ps[k] == CheckOnce(env.observed(k))
  {
    if n == 0 then [] else Probes(env, n - 1) + [CheckOnce(env.observed(n - 1))]
  }

  /** How many probes at the end all came out as wanted. */
  function Streak(ps: seq<Probe>, wanted: bool): (k: nat)
    ensures k <= |ps|
    ensures forall i :: |ps| - k <= i < |ps| ==> ps[i].success == wanted
    ensures k < |ps| ==> ps[|ps| - k - 1].success != wanted
  {
    if ps == [] || ps[|ps| - 1].success != wanted then 0 else 1 + Streak(ps[..|ps| - 1], wanted)
  }

  predicate Undecided(cfg: Config, ps: seq<Probe>) {
    Streak(ps, true) < cfg.successThreshold && Streak(ps, false) < cfg.failureThreshold
  }

  /** Before each of the first n probes the deadline is ahead and the context alive. */
  ghost predicate InTime(cfg: Config, env: Env, n: nat) {
    forall k :: 0 <= k < n ==> At(env, k) < env.start + Timeout(cfg) && !env.cancelled(k)
  }

  datatype Outcome = Healthy | Unhealthy | TimedOut | Cancelled

  /** The run ends after n probes with that outcome: undecided until then, in time and not cancelled before each probe. */
  ghost predicate Ends(cfg: Config, env: Env, n: nat, outcome: Outcome) {
    && InTime(cfg, env, n)
    && (forall k :: 0 <= k < n ==> Undecided(cfg, Probes(env, k)))
    && match outcome
       case Healthy => n > 0 && Streak(Probes(env, n), true) >= cfg.successThreshold
       case Unhealthy => n > 0 && Streak(Probes(env, n), false) >= cfg.failureThreshold
       case TimedOut => Undecided(cfg, Probes(env, n)) && At(env, n) >= env.start + Timeout(cfg)
       case Cancelled => Undecided(cfg, Probes(env, n)) && At(env, n) < env.start + Timeout(cfg) && env.cancelled(n)
  }

  method Poll(cfg: Config, env: Env) returns (results: seq<Probe>, outcome: Outcome)
    requires cfg.successThreshold >= 1 && cfg.failureThreshold >= 1
    ensures results == Probes(env, |results|) && Ends(cfg, env, |results|, outcome)
  {
    hide Streak, Pause, At, Probes, CheckOnce;
    var deadline := env.start + Timeout(cfg);
    var now := env.start;
    results := [];
    var successes, failures := 0, 0;
    var backoff := SECOND;
    Starts(env);
    while now < deadline
      invariant now == At(env, |results|) && backoff == Pause(|results|)
      invariant results == Probes(env, |results|)
      invariant successes == Streak(results, true) && failures == Streak(results, false)
      invariant successes < cfg.successThreshold && failures < cfg.failureThreshold
      invariant InTime(cfg, env, |results|) && forall k :: 0 <= k < |results| ==> Undecided(cfg, Probes(env, k))
      decreases deadline - now
    {
      var k := |results|;
      if env.cancelled(k) {
        return results, Cancelled;
      }
      OneMore(env, k);
      StreakGrows(results, CheckOnce(env.observed(k)));
      var r := CheckOnce(env.observed(k));
      results := results + [r];
      if r.success {
        successes := successes + 1;
        failures := 0;
        if successes >= cfg.successThreshold {
          return results, Healthy;
        }
      } else {
        failures := failures + 1;
        successes := 0;
        if failures >= cfg.failureThreshold {
          return results, Unhealthy;
        }
      }
      now := now + env.spent(k) + backoff;
      if backoff < 30 * SECOND {
        backoff := backoff * 2;
      }
    }
    outcome := TimedOut;
  }

  lemma Starts(env: Env)
    ensures At(env, 0) == env.start && Pause(0) == SECOND && Probes(env, 0) == []
    ensures Streak([], true) == 0 && Streak([], false) == 0
  {}

  lemma OneMore(env: Env, k: nat)
    ensures Probes(env, k + 1) == Probes(env, k) + [CheckOnce(env.observed(k))]
    ensures At(env, k + 1) == At(env, k) + env.spent(k) + Pause(k)
    ensures Pause(k + 1) == if Pause(k) < 30 * SECOND then Pause(k) * 2 else Pause(k)
  {}

  lemma StreakGrows(ps: seq<Probe>, p: Probe)
    ensures forall wanted :: Streak(ps + [p], wanted) == if p.success == wanted then Streak(ps, wanted) + 1 else 0
  {
    assert (ps + [p])[..|ps|] == ps;
  }

  class Checker {
    var cfg: Config

    constructor (cfg: Config)
      ensures this.cfg == cfg
    {
      this.cfg := cfg;
    }

    /** The defaults are written into the checker's own configuration. */
    method WaitUntilHealthy(env: Env) returns (results: seq<Probe>, outcome: Outcome)
      modifies this
      ensures cfg == Defaults(old(cfg))
      ensures results == Probes(env, |results|) && Ends(cfg, env, |results|, outcome)
    {
      if cfg.successThreshold <= 0 {
        cfg := cfg.(successThreshold := 1);
      }
      if cfg.failureThreshold <= 0 {
        cfg := cfg.(failureThreshold := 3);
      }
      if cfg.maxRetries <= 0 {
        cfg := cfg.(maxRetries := 5);
      }
      results, outcome := Poll(cfg, env);
    }
  }

  // ----------------------------------------------------------------- properties

  /** A stretch of that many equal results. */
  ghost predicate RunOf(ps: seq<Probe>, from: nat, length: int, wanted: bool) {
    from + length <= |ps| && forall i :: from <= i < from + length ==> ps[i].success == wanted
  }

  /** The results end in enough consecutive successes, and before them there is neither such a run nor one of too many failures. */
  ghost predicate EndsHealthy(cfg: Config, ps: seq<Probe>) {
    && |ps| >= cfg.successThreshold && RunOf(ps, |ps| - cfg.successThreshold, cfg.successThreshold, true)
    && (forall from :: 0 <= from && from + cfg.failureThreshold <= |ps| ==> !RunOf(ps, from, cfg.failureThreshold, false))
    && (forall from :: 0 <= from && from + cfg.successThreshold < |ps| ==> !RunOf(ps, from, cfg.successThreshold, true))
  }

  lemma {:induction false} ProbesPrefix(env: Env, n: nat, k: nat)
    requires k <= n
    ensures Probes(env, n)[..k] == Probes(env, k)
  {
    if k < n {
      ProbesPrefix(env, n - 1, k);
      assert Probes(env, n)[..n - 1] == Probes(env, n - 1);
      assert Probes(env, n)[..k] == Probes(env, n - 1)[..k];
    } else {
      assert Probes(env, n)[..n] == Probes(env, n);
    }
  }

  lemma StreakCovers(ps: seq<Probe>, length: nat, wanted: bool)
    requires length <= |ps| && RunOf(ps, |ps| - length, length, wanted)
    ensures Streak(ps, wanted) >= length
  {
    var k := Streak(ps, wanted);
    assert k < |ps| ==> ps[|ps| - k - 1].success != wanted;
  }

  /** No undecided prefix contains either kind of run. */
  lemma NoRunBefore(cfg: Config, env: Env, n: nat, from: nat, length: nat, wanted: bool)
    requires length >= 1 && from + length <= n
    requires Undecided(cfg, Probes(env, from + length))
    requires length == if wanted then cfg.successThreshold else cfg.failureThreshold
    ensures !RunOf(Probes(env, n), from, length, wanted)
  {
    var ps := Probes(env, from + length);
    ProbesPrefix(env, n, from + length);
    assert forall i :: from <= i < from + length ==> ps[i] == Probes(env, n)[i];
    if RunOf(Probes(env, n), from, length, wanted) {
      StreakCovers(ps, length, wanted);
    }
  }

  /**
    Healthy is reported if and only if, within the time and cancellation limits
    before each probe, some first n results end in the required run of successes
    with no earlier run of the forbidden failures.
   */
  lemma HealthyExactly(cfg: Config, env: Env, n: nat)
    requires cfg.successThreshold >= 1 && cfg.failureThreshold >= 1
    ensures Ends(cfg, env, n, Healthy) <==>
            EndsHealthy(cfg, Probes(env, n)) && InTime(cfg, env, n)
  {
    hide *;
    if Ends(cfg, env, n, Healthy) {
      HealthyEnds(cfg, env, n);
    }
    if EndsHealthy(cfg, Probes(env, n)) && InTime(cfg, env, n) {
      HealthyIsReported(cfg, env, n);
    }
  }

  lemma HealthyIsReported(cfg: Config, env: Env, n: nat)
    requires cfg.successThreshold >= 1 && cfg.failureThreshold >= 1 && EndsHealthy(cfg, Probes(env, n)) && InTime(cfg, env, n)
    ensures Ends(cfg, env, n, Healthy)
  {
    StreakCovers(Probes(env, n), cfg.successThreshold, true);
    hide Undecided, Streak, At, Probes;
    forall k | 0 <= k < n ensures Undecided(cfg, Probes(env, k)) {
      NotYet(cfg, env, n, k);
    }
  }

  lemma HealthyEnds(cfg: Config, env: Env, n: nat)
    requires cfg.successThreshold >= 1 && cfg.failureThreshold >= 1 && Ends(cfg, env, n, Healthy)
    ensures EndsHealthy(cfg, Probes(env, n)) && InTime(cfg, env, n)
  {
    var ps, s, f := Probes(env, n), cfg.successThreshold, cfg.failureThreshold;
    assert ps[n - 1].success && RunOf(ps, n - s, s, true);
    assert forall k :: 0 <= k < n ==> Undecided(cfg, Probes(env, k));
    hide Undecided, Probes, Streak, At;
    forall from | 0 <= from && from + f <= n ensures !RunOf(ps, from, f, false) {
      if from + f < n {
        NoRunBefore(cfg, env, n, from, f, false);
      } else {
        assert from <= n - 1 < from + f;
      }
    }
    forall from | 0 <= from && from + s < n ensures !RunOf(ps, from, s, true) {
      NoRunBefore(cfg, env, n, from, s, true);
    }
  }

  lemma NotYet(cfg: Config, env: Env, n: nat, k: nat)
    requires cfg.successThreshold >= 1 && cfg.failureThreshold >= 1 && k < n && EndsHealthy(cfg, Probes(env, n))
    ensures Undecided(cfg, Probes(env, k))
  {
    var ps, qs := Probes(env, n), Probes(env, k);
    ProbesPrefix(env, n, k);
    assert forall i :: 0 <= i < k ==> qs[i] == ps[i];
    if Streak(qs, true) >= cfg.successThreshold {
      assert RunOf(ps, k - cfg.successThreshold, cfg.successThreshold, true);
    }
    if Streak(qs, false) >= cfg.failureThreshold {
      assert RunOf(ps, k - cfg.failureThreshold, cfg.failureThreshold, false);
    }
  }

  /** The world leaves the loop one way to end. */
  lemma EndsOnce(cfg: Config, env: Env, n: nat, a: Outcome, m: nat, b: Outcome)
    requires cfg.successThreshold >= 1 && cfg.failureThreshold >= 1
    requires Ends(cfg, env, n, a) && Ends(cfg, env, m, b)
    ensures n == m && a == b
  {
    NotBefore(cfg, env, n, a, m, b);
    NotBefore(cfg, env, m, b, n, a);
    var ps := Probes(env, n);
    if n > 0 { assert ps[n - 1].success || !ps[n - 1].success; }
  }

  lemma NotBefore(cfg: Config, env: Env, n: nat, a: Outcome, m: nat, b: Outcome)
    requires Ends(cfg, env, n, a) && Ends(cfg, env, m, b)
    ensures n >= m
  {
    assert n < m ==> Undecided(cfg, Probes(env, n));
  }

  lemma {:induction false} TimeGrows(env: Env, k: nat)
    ensures Pause(k) == (if k == 0 then 1 else if k == 1 then 2 else if k == 2 then 4 else if k == 3 then 8 else if k == 4 then 16 else 32) * SECOND
    ensures k >= 5 ==> At(env, k) >= env.start + (31 + 32 * (k - 5)) * SECOND
    ensures k < 5 ==> At(env, k) >= env.start + (if k == 0 then 0 else if k == 1 then 1 else if k == 2 then 3 else if k == 3 then 7 else 15) * SECOND
  {
    if k > 0 {
      TimeGrows(env, k - 1);
    }
  }

  /** The pauses bound the number of probes: at most fourteen under the default timeout. */
  lemma ProbesBounded(cfg: Config, env: Env, n: nat, outcome: Outcome)
    requires Ends(cfg, env, n, outcome)
    ensures n >= 6 ==> Timeout(cfg) > (31 + 32 * (n - 6)) * SECOND
    ensures cfg.startupTimeout <= 0 ==> n <= 14
  {
    if n >= 6 {
      TimeGrows(env, n - 1);
    }
  }

  lemma {:induction false} AllTheSame(env: Env, n: nat, wanted: bool)
    requires forall k :: 0 <= k < n ==> CheckOnce(env.observed(k)).success == wanted
    ensures Streak(Probes(env, n), wanted) == n && Streak(Probes(env, n), !wanted) == 0
  {
    hide CheckOnce, Pause, At, Streak, Probes;
    Starts(env);
    if n > 0 {
      AllTheSame(env, n - 1, wanted);
      OneMore(env, n - 1);
      StreakGrows(Probes(env, n - 1), CheckOnce(env.observed(n - 1)));
    }
  }

  /** As configured, with one success, three failures and five minutes where nothing is. */
  ghost function Wanted(cfg: Config, success: bool): nat {
    if success then (if cfg.successThreshold > 0 then cfg.successThreshold else 1)
    else (if cfg.failureThreshold > 0 then cfg.failureThreshold else 3)
  }

  ghost predicate BeforeDeadline(cfg: Config, env: Env, k: nat) {
    At(env, k) - env.start < (if cfg.startupTimeout > 0 then cfg.startupTimeout else 300_000_000_000)
  }

  lemma DeadlineIs(cfg: Config, env: Env, k: nat)
    ensures BeforeDeadline(cfg, env, k) <==> At(env, k) < env.start + Timeout(Defaults(cfg))
  {
    hide At;
  }

  /** A container that always answers alike is judged after exactly the wanted number of probes, as long as there is time for them. */
  lemma JudgedAfter(cfg: Config, env: Env, success: bool)
    requires forall k :: 0 <= k < Wanted(cfg, success) ==>
               CheckOnce(env.observed(k)).success == success && !env.cancelled(k) && BeforeDeadline(cfg, env, k)
    ensures Ends(Defaults(cfg), env, Wanted(cfg, success), if success then Healthy else Unhealthy)
  {
    hide Streak, Probes, At, CheckOnce, Pause, BeforeDeadline, Timeout;
    var n := Wanted(cfg, success);
    AllTheSame(env, n, success);
    forall k | 0 <= k < n ensures Undecided(Defaults(cfg), Probes(env, k)) && At(env, k) < env.start + Timeout(Defaults(cfg)) {
      AllTheSame(env, k, success);
      DeadlineIs(cfg, env, k);
    }
  }

  /** Time is up exactly when the probes so far decide nothing and the deadline has come. */
  lemma TimesOutExactly(cfg: Config, env: Env, n: nat)
    requires forall k :: 0 <= k < n ==> !env.cancelled(k) && BeforeDeadline(cfg, env, k) && Undecided(Defaults(cfg), Probes(env, k))
    ensures Ends(Defaults(cfg), env, n, TimedOut) <==> Undecided(Defaults(cfg), Probes(env, n)) && !BeforeDeadline(cfg, env, n)
  {
    hide Undecided, At, Probes, Streak, Pause, CheckOnce;
    forall k | 0 <= k <= n ensures BeforeDeadline(cfg, env, k) <==> At(env, k) < env.start + Timeout(Defaults(cfg)) {
      DeadlineIs(cfg, env, k);
    }
    hide BeforeDeadline, Timeout, Defaults;
  }
}
