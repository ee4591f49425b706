/** Quota checks against the metered usage; quantities are reals. */
module Quota {
  import opened Common
  import U = Usage

  datatype Config = Config(
    maxProjects: int, maxDeployments: int, maxCustomDomains: int, maxApiRequests: int,
    maxStorage: real, maxBandwidth: real, maxBuildMinutes: real, maxContainerHours: real, warnPct: real)

  datatype Violation = Violation(org: string, dimension: string, current: real, limit: real, pct: real, hard: bool)

  const FREE := "free"

  /** Unknown dimensions are unlimited. */
  function LimitFor(cfg: Config, dimension: string): real {
    match dimension
    case "projects" => cfg.maxProjects as real
    case "deployments" => cfg.maxDeployments as real
    case "build_minutes" => cfg.maxBuildMinutes
    case "container_hours" => cfg.maxContainerHours
    case "bandwidth_gb" => cfg.maxBandwidth
    case "storage_gb" => cfg.maxStorage
    case "custom_domains" => cfg.maxCustomDomains as real
    case "api_requests" => cfg.maxApiRequests as real
    case _ => -1.0
  }

  /** What the three lookups give; None is an error. */
  datatype Lookups = Lookups(plan: Option<string>, configs: string -> Option<Config>, usage: Option<real>)

  function PlanConfig(l: Lookups): Option<Config> { l.configs(l.plan.GetOr(FREE)) }

  /** Usage left to a positive limit, and everything else that lets a request through. */
  predicate Admits(l: Lookups, dimension: string, delta: real) {
    match PlanConfig(l)
    case None => true
    case Some(cfg) =>
      var limit := LimitFor(cfg, dimension);
      limit < 0.0 || (limit > 0.0 && (l.usage.None? || l.usage.value + delta <= limit))
  }

  function WarnAt(cfg: Config): real { if cfg.warnPct <= 0.0 then 80.0 else cfg.warnPct }

  /** The request would bring usage to the warning share of a positive limit. */
  predicate Warns(l: Lookups, dimension: string, delta: real) {
    && PlanConfig(l).Some? && l.usage.Some?
    && LimitFor(PlanConfig(l).value, dimension) > 0.0
    && (l.usage.value + delta) * 100.0 >= WarnAt(PlanConfig(l).value) * LimitFor(PlanConfig(l).value, dimension)
  }

  /** A percentage of a positive limit exceeds a bound when the amount exceeds that share. */
  lemma Share(amount: real, limit: real, pct: real)
    requires limit > 0.0
    ensures amount / limit * 100.0 > pct <==> amount * 100.0 > pct * limit
    ensures amount / limit * 100.0 >= pct <==> amount * 100.0 >= pct * limit
  {
    var q := amount / limit;
    assert q * limit == amount;
    if q * 100.0 > pct {
      MulPositive(q * 100.0 - pct, limit);
      assert (q * 100.0 - pct) * limit == amount * 100.0 - pct * limit;
    } else if q * 100.0 < pct {
      MulPositive(pct - q * 100.0, limit);
      assert (pct - q * 100.0) * limit == pct * limit - amount * 100.0;
    } else {
      assert pct * limit == amount * 100.0;
    }
  }

  lemma MulPositive(a: real, b: real)
    requires a > 0.0 && b > 0.0
    ensures a * b > 0.0
  {}

  method Check(org: string, dimension: string, delta: real, l: Lookups) returns (allowed: bool, violations: seq<Violation>)
    ensures allowed <==> Admits(l, dimension, delta)
    ensures !allowed ==> |violations| == 1 && violations[0].hard
    ensures allowed ==> (violations != [] <==> Warns(l, dimension, delta))
    ensures allowed ==> forall v :: v in violations ==> !v.hard && v.limit > 0.0 && v.current <= v.limit
  {
    var plan := if l.plan.Some? then l.plan.value else FREE;
    var cfg := l.configs(plan);
    if cfg.None? {
      return true, [];
    }
    var limit := LimitFor(cfg.value, dimension);
    if limit < 0.0 {
      return true, [];
    }
    if limit == 0.0 {
      return false, [Violation(org, dimension, delta, 0.0, 100.0, true)];
    }
    if l.usage.None? {
      return true, [];
    }
    var projected := l.usage.value + delta;
    var pct := projected / limit * 100.0;
    Share(projected, limit, 100.0);
    var v := Violation(org, dimension, projected, limit, pct, false);
    if pct > 100.0 {
      return false, [v.(hard := true)];
    }
    var warn := cfg.value.warnPct;
    if warn <= 0.0 {
      warn := 80.0;
    }
    Share(projected, limit, warn);
    if pct >= warn {
      return true, [v];
    }
    return true, [];
  }

  method Enforce(org: string, dimension: string, delta: real, l: Lookups) returns (r: Result<()>)
    ensures r == if Admits(l, dimension, delta) then Ok(()) else Err(Exhausted)
  {
    var allowed, violations := Check(org, dimension, delta, l);
    if !allowed {
      for i := 0 to |violations|
        invariant forall k :: 0 <= k < i ==> !violations[k].hard
      {
        if violations[i].hard {
          return Err(Exhausted);
        }
      }
    }
    r := Ok(());
  }

  /**
    Under a positive limit, after a rollup and with the lookups answering, a
    request passes if and only if the raw usage recorded so far leaves room for
    it, as long as raw records were only ever added.
   */
  lemma AllowedExactly(ops: seq<U.Op>, org: string, dimension: string, period: string, delta: real, l: Lookups)
    requires forall op :: op in ops ==> !op.Drop?
    requires var s := U.RollUp(U.Exec(U.EMPTY, ops), period); l.usage == Some(U.Usage(s, org, dimension, period))
    requires PlanConfig(l).Some? && LimitFor(PlanConfig(l).value, dimension) > 0.0
    ensures Admits(l, dimension, delta) <==>
            U.RawUsage(U.Exec(U.EMPTY, ops).records, org, dimension, period) + delta <= LimitFor(PlanConfig(l).value, dimension)
  {
    U.AppendOnlyExact(ops, org, dimension, period);
  }

  /** Usage recorded after the rollup is not seen: the raw total may pass the limit by as much as that. */
  lemma UnrolledUsageUnseen(ops: seq<U.Op>, later: U.Record, delta: real, l: Lookups)
    requires forall op :: op in ops ==> !op.Drop?
    requires PlanConfig(l).Some? && LimitFor(PlanConfig(l).value, later.key.dimension) > 0.0
    requires var s := U.Apply(U.RollUp(U.Exec(U.EMPTY, ops), later.key.period), U.Add(later));
             l.usage == Some(U.Usage(s, later.key.org, later.key.dimension, later.key.period))
    ensures Admits(l, later.key.dimension, delta) <==>
            U.RawUsage(U.Exec(U.EMPTY, ops).records + [later], later.key.org, later.key.dimension, later.key.period) + delta
            <= LimitFor(PlanConfig(l).value, later.key.dimension) + later.quantity
  {
    var records := U.Exec(U.EMPTY, ops).records;
    U.AppendOnlyExact(ops, later.key.org, later.key.dimension, later.key.period);
    assert (records + [later])[..|records|] == records;
  }

  const DIMENSIONS := {"projects", "deployments", "custom_domains", "api_requests", "storage_gb", "bandwidth_gb", "build_minutes", "container_hours"}

  /** A limit lets a request through when it is negative, or positive with room left or usage unknown. */
  ghost predicate Fits(limit: real, usage: Option<real>, delta: real) {
    limit < 0.0 || (limit > 0.0 && (usage.Some? ==> usage.value + delta <= limit))
  }

  /** Each dimension is held to its own limit, an unknown one to none, under the plan subscribed to or else the free one. */
  lemma EachDimension(l: Lookups, cfg: Config, dimension: string, delta: real)
    requires l.configs(if l.plan.Some? then l.plan.value else "free") == Some(cfg)
    ensures Admits(l, "projects", delta) <==> Fits(cfg.maxProjects as real, l.usage, delta)
    ensures Admits(l, "deployments", delta) <==> Fits(cfg.maxDeployments as real, l.usage, delta)
    ensures Admits(l, "custom_domains", delta) <==> Fits(cfg.maxCustomDomains as real, l.usage, delta)
    ensures Admits(l, "api_requests", delta) <==> Fits(cfg.maxApiRequests as real, l.usage, delta)
    ensures Admits(l, "storage_gb", delta) <==> Fits(cfg.maxStorage, l.usage, delta)
    ensures Admits(l, "bandwidth_gb", delta) <==> Fits(cfg.maxBandwidth, l.usage, delta)
    ensures Admits(l, "build_minutes", delta) <==> Fits(cfg.maxBuildMinutes, l.usage, delta)
    ensures Admits(l, "container_hours", delta) <==> Fits(cfg.maxContainerHours, l.usage, delta)
    ensures dimension !in DIMENSIONS ==> Admits(l, dimension, delta)
  {}

  /** Without a warning share set, the warning comes at eighty percent. */
  lemma WarnsAtEighty(l: Lookups, cfg: Config, dimension: string, delta: real)
    requires PlanConfig(l) == Some(cfg) && cfg.warnPct <= 0.0 && l.usage.Some? && LimitFor(cfg, dimension) > 0.0
    ensures Warns(l, dimension, delta) <==> l.usage.value + delta >= 0.8 * LimitFor(cfg, dimension)
  {
    var amount, limit := l.usage.value + delta, LimitFor(cfg, dimension);
    assert 80.0 * limit == 100.0 * (0.8 * limit);
  }
}
