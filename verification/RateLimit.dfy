/** The in-memory rate limiter: one fixed window per client address, restarted by the first late request. */
module RateLimit {
  import opened Common

  datatype Bucket = Bucket(count: nat, resetAt: int)

  class RateLimiter {
    const limit: int
    const window: int
    var buckets: map<string, Bucket>

    constructor (limit: int, window: int)
      ensures this.limit == limit && this.window == window && buckets == map[]
    {
      this.limit, this.window := limit, window;
      buckets := map[];
    }

    method Allow(ip: string, now: int) returns (pass: bool)
      modifies this
      ensures buckets == Hit(window, old(buckets), ip, now)
      ensures pass == (buckets[ip].count <= limit)
    {
      if ip !in buckets || now > buckets[ip].resetAt {
        buckets := buckets[ip := Bucket(0, now + window)];
      }
      var b := buckets[ip];
      buckets := buckets[ip := b.(count := b.count + 1)];
      pass := buckets[ip].count <= limit;
    }
  }

  function Hit(window: int, buckets: map<string, Bucket>, ip: string, now: int): (r: map<string, Bucket>)
    ensures ip in r
  {
    var b := if ip !in buckets || now > buckets[ip].resetAt then Bucket(0, now + window) else buckets[ip];
    buckets[ip := b.(count := b.count + 1)]
  }

  // ------------------------------------------------------------------ history

  datatype Arrival = Arrival(ip: string, at: int)

  /** What became of a request: when, from whom, in the bucket expiring when, and whether it passed. */
  datatype Outcome = Outcome(ip: string, at: int, resetAt: int, pass: bool)

  function Buckets(window: int, arrivals: seq<Arrival>): map<string, Bucket> {
    if arrivals == [] then map[]
    else var n := |arrivals| - 1; Hit(window, Buckets(window, arrivals[..n]), arrivals[n].ip, arrivals[n].at)
  }

  function Outcomes(limit: int, window: int, arrivals: seq<Arrival>): (os: seq<Outcome>)
    ensures |os| == |arrivals|
  {
    if arrivals == [] then []
    else
      var n := |arrivals| - 1;
      var b := Buckets(window, arrivals)[arrivals[n].ip];
      Outcomes(limit, window, arrivals[..n]) + [Outcome(arrivals[n].ip, arrivals[n].at, b.resetAt, b.count <= limit)]
  }

  predicate Monotone(arrivals: seq<Arrival>) { forall i, j :: 0 <= i < j < |arrivals| ==> arrivals[i].at <= arrivals[j].at }

  /** Requests of ip, passed ones only, in the bucket expiring at resetAt. */
  function PassedIn(os: seq<Outcome>, ip: string, resetAt: int): nat {
    if os == [] then 0
    else
      var o := os[|os| - 1];
      PassedIn(os[..|os| - 1], ip, resetAt) + if o.ip == ip && o.resetAt == resetAt && o.pass then 1 else 0
  }

  /** Requests of ip passed within [from, to]. */
  function PassedDuring(os: seq<Outcome>, ip: string, from: int, to: int): nat {
    if os == [] then 0
    else
      var o := os[|os| - 1];
      PassedDuring(os[..|os| - 1], ip, from, to) + if o.ip == ip && from <= o.at <= to && o.pass then 1 else 0
  }

  ghost function Cap(limit: int): nat { if limit < 0 then 0 else limit }

  function Min(a: int, b: int): int { if a < b then a else b }

  /** The request that started the bucket. */
  ghost predicate Opens(o: Outcome, ip: string, resetAt: int, window: int, limit: int) {
    o.ip == ip && o.resetAt == resetAt && o.at == resetAt - window && o.pass == (1 <= limit)
  }

  /** The bucket's first request is on record. */
  ghost predicate Opened(os: seq<Outcome>, ip: string, resetAt: int, window: int, limit: int) {
    exists i :: 0 <= i < |os| && Opens(os[i], ip, resetAt, window, limit)
  }

  /** Two buckets are the same or at least a window apart. */
  ghost predicate Apart(a: int, b: int, window: int) { a == b || a + window < b || b + window < a }

  /** Bookkeeping for one address: every request lies in its bucket's window, and buckets do not overlap. */
  ghost predicate History(limit: int, window: int, os: seq<Outcome>, ip: string) {
    && (forall i :: 0 <= i < |os| && os[i].ip == ip ==>
          os[i].resetAt - window <= os[i].at <= os[i].resetAt && Opened(os, ip, os[i].resetAt, window, limit))
    && (forall i, j :: 0 <= i < |os| && 0 <= j < |os| && os[i].ip == ip && os[j].ip == ip ==> Apart(os[i].resetAt, os[j].resetAt, window))
  }

  /** The bucket in force is the latest one. */
  ghost predicate Current(limit: int, window: int, b: map<string, Bucket>, os: seq<Outcome>, ip: string) {
    && (forall i :: 0 <= i < |os| && os[i].ip == ip ==> ip in b && os[i].resetAt <= b[ip].resetAt)
    && (ip in b ==> b[ip].count >= 1 && exists i :: 0 <= i < |os| && os[i].ip == ip && os[i].resetAt == b[ip].resetAt)
  }

  lemma {:induction false} HistoryHolds(limit: int, window: int, arrivals: seq<Arrival>, ip: string)
    requires window >= 0 && Monotone(arrivals)
    ensures var os := Outcomes(limit, window, arrivals);
            History(limit, window, os, ip) && Current(limit, window, Buckets(window, arrivals), os, ip)
    ensures forall i :: 0 <= i < |arrivals| ==> Outcomes(limit, window, arrivals)[i].at == arrivals[i].at
    decreases |arrivals|
  {
    if arrivals == [] {
      NothingYet(limit, window, ip);
    } else {
      var n := |arrivals| - 1;
      var a, b, os := arrivals[n], Buckets(window, arrivals[..n]), Outcomes(limit, window, arrivals[..n]);
      var o := Outcomes(limit, window, arrivals)[n];
      HistoryHolds(limit, window, arrivals[..n], ip);
      assert forall i :: 0 <= i < n ==> arrivals[..n][i] == arrivals[i];
      hide History, Current;
      SnocCurrent(limit, window, b, os, ip, a);
      if a.ip == ip {
        SnocHistory(limit, window, b, os, ip, a.at);
      } else {
        OtherAddress(limit, window, os, o, ip);
      }
    }
  }

  lemma NothingYet(limit: int, window: int, ip: string)
    ensures History(limit, window, [], ip) && Current(limit, window, map[], [], ip)
  {}

  lemma SnocCurrent(limit: int, window: int, b: map<string, Bucket>, os: seq<Outcome>, ip: string, a: Arrival)
    requires window >= 0 && History(limit, window, os, ip) && Current(limit, window, b, os, ip)
    requires forall i :: 0 <= i < |os| ==> os[i].at <= a.at
    ensures var c := Hit(window, b, a.ip, a.at);
            Current(limit, window, c, os + [Outcome(a.ip, a.at, c[a.ip].resetAt, c[a.ip].count <= limit)], ip)
  {
    var c := Hit(window, b, a.ip, a.at);
    var all := os + [Outcome(a.ip, a.at, c[a.ip].resetAt, c[a.ip].count <= limit)];
    if a.ip == ip {
      assert all[|os|].ip == ip && all[|os|].resetAt == c[ip].resetAt;
    } else if ip in b {
      var i :| 0 <= i < |os| && os[i].ip == ip && os[i].resetAt == b[ip].resetAt;
      assert all[i] == os[i];
    }
  }

  lemma OpenedStays(os: seq<Outcome>, o: Outcome, ip: string, resetAt: int, window: int, limit: int)
    requires Opened(os, ip, resetAt, window, limit)
    ensures Opened(os + [o], ip, resetAt, window, limit)
  {
    var i :| 0 <= i < |os| && Opens(os[i], ip, resetAt, window, limit);
    assert (os + [o])[i] == os[i];
  }

  lemma OtherAddress(limit: int, window: int, os: seq<Outcome>, o: Outcome, ip: string)
    requires History(limit, window, os, ip) && o.ip != ip
    ensures History(limit, window, os + [o], ip)
  {
    forall i | 0 <= i < |os + [o]| && (os + [o])[i].ip == ip ensures Opened(os + [o], ip, (os + [o])[i].resetAt, window, limit) {
      assert (os + [o])[i] == os[i];
      OpenedStays(os, o, ip, os[i].resetAt, window, limit);
    }
  }

  lemma SnocHistory(limit: int, window: int, b: map<string, Bucket>, os: seq<Outcome>, ip: string, now: int)
    requires window >= 0 && History(limit, window, os, ip) && Current(limit, window, b, os, ip)
    requires forall i :: 0 <= i < |os| ==> os[i].at <= now
    ensures var c := Hit(window, b, ip, now)[ip];
            var o := Outcome(ip, now, c.resetAt, c.count <= limit);
            History(limit, window, os + [o], ip)
  {
    var c := Hit(window, b, ip, now)[ip];
    var o := Outcome(ip, now, c.resetAt, c.count <= limit);
    var all := os + [o];
    if ip in b && now <= b[ip].resetAt {
      var i :| 0 <= i < |os| && os[i].ip == ip && os[i].resetAt == b[ip].resetAt;
      OpenedStays(os, o, ip, os[i].resetAt, window, limit);
    } else {
      assert Opens(all[|os|], ip, o.resetAt, window, limit);
    }
    forall i | 0 <= i < |all| && all[i].ip == ip
      ensures all[i].resetAt - window <= all[i].at <= all[i].resetAt && Opened(all, ip, all[i].resetAt, window, limit)
    {
      if i < |os| {
        OpenedStays(os, o, ip, os[i].resetAt, window, limit);
      }
    }
    forall i, j | 0 <= i < |all| && 0 <= j < |all| && all[i].ip == ip && all[j].ip == ip
      ensures Apart(all[i].resetAt, all[j].resetAt, window)
    {
      if i < |os| { assert all[i] == os[i]; }
      if j < |os| { assert all[j] == os[j]; }
    }
  }

  /** At most limit requests pass per bucket; while the bucket is current they are exactly min(count, limit). */
  lemma {:induction false} BucketBound(limit: int, window: int, arrivals: seq<Arrival>, ip: string, resetAt: int)
    requires window >= 0 && Monotone(arrivals)
    ensures var b, os := Buckets(window, arrivals), Outcomes(limit, window, arrivals);
            && PassedIn(os, ip, resetAt) <= Cap(limit)
            && (ip in b && b[ip].resetAt == resetAt ==> PassedIn(os, ip, resetAt) == Min(b[ip].count, Cap(limit)))
            && (ip !in b || b[ip].resetAt < resetAt ==> PassedIn(os, ip, resetAt) == 0)
    decreases |arrivals|
  {
    if arrivals != [] {
      var n := |arrivals| - 1;
      BucketBound(limit, window, arrivals[..n], ip, resetAt);
      var os := Outcomes(limit, window, arrivals);
      assert os[..n] == Outcomes(limit, window, arrivals[..n]);
    }
  }

  // ------------------------------------------------------- any window of time

  ghost predicate Seen(o: Outcome, ip: string, from: int, to: int) { o.ip == ip && from <= o.at <= to }

  function DuringIn(os: seq<Outcome>, ip: string, resetAt: int, from: int, to: int): nat {
    if os == [] then 0
    else
      var o := os[|os| - 1];
      DuringIn(os[..|os| - 1], ip, resetAt, from, to)
      + if o.ip == ip && o.resetAt == resetAt && from <= o.at <= to && o.pass then 1 else 0
  }

  lemma {:induction false} TwoBuckets(os: seq<Outcome>, ip: string, from: int, to: int, r: int, q: int)
    requires r != q && forall i :: 0 <= i < |os| && Seen(os[i], ip, from, to) ==> os[i].resetAt == r || os[i].resetAt == q
    ensures PassedDuring(os, ip, from, to) == DuringIn(os, ip, r, from, to) + DuringIn(os, ip, q, from, to)
    decreases |os|
  {
    if os != [] {
      var n := |os| - 1;
      assert forall i :: 0 <= i < n ==> os[..n][i] == os[i];
      TwoBuckets(os[..n], ip, from, to, r, q);
      assert Seen(os[n], ip, from, to) ==> os[n].resetAt == r || os[n].resetAt == q;
    }
  }

  lemma {:induction false} DuringAtMost(os: seq<Outcome>, ip: string, resetAt: int, from: int, to: int)
    ensures DuringIn(os, ip, resetAt, from, to) <= PassedIn(os, ip, resetAt)
    ensures (forall i :: 0 <= i < |os| && Seen(os[i], ip, from, to) ==> os[i].resetAt != resetAt) ==> DuringIn(os, ip, resetAt, from, to) == 0
    ensures (exists i :: 0 <= i < |os| && os[i].ip == ip && os[i].resetAt == resetAt && os[i].pass && os[i].at < from) ==>
      DuringIn(os, ip, resetAt, from, to) < PassedIn(os, ip, resetAt)
    decreases |os|
  {
    if os != [] {
      var n := |os| - 1;
      assert forall i :: 0 <= i < n ==> os[..n][i] == os[i];
      DuringAtMost(os[..n], ip, resetAt, from, to);
      assert Seen(os[n], ip, from, to) <==> os[n].ip == ip && from <= os[n].at <= to;
    }
  }

  /** When a window of time touches two buckets, the first one opened before it. */
  lemma EarlierOpened(limit: int, window: int, os: seq<Outcome>, ip: string, from: int, i: nat, j: nat)
    requires window >= 0 && limit >= 1 && History(limit, window, os, ip) && i < |os| && j < |os|
    requires Seen(os[i], ip, from, from + window) && Seen(os[j], ip, from, from + window) && os[i].resetAt < os[j].resetAt
    ensures exists k :: 0 <= k < |os| && os[k].ip == ip && os[k].resetAt == os[i].resetAt && os[k].pass && os[k].at < from
    ensures forall k :: 0 <= k < |os| && Seen(os[k], ip, from, from + window) ==> os[k].resetAt == os[i].resetAt || os[k].resetAt == os[j].resetAt
  {
    assert Apart(os[i].resetAt, os[j].resetAt, window);
    var k :| 0 <= k < |os| && Opens(os[k], ip, os[i].resetAt, window, limit);
    assert os[k].at < from;
    forall m | 0 <= m < |os| && Seen(os[m], ip, from, from + window)
      ensures os[m].resetAt == os[i].resetAt || os[m].resetAt == os[j].resetAt
    {
      assert Apart(os[m].resetAt, os[i].resetAt, window) && Apart(os[m].resetAt, os[j].resetAt, window);
    }
  }

  ghost function WindowBound(limit: int): nat { if limit <= 0 then 0 else 2 * limit - 1 }

  /** However requests arrive, at most 2 * limit - 1 of one address pass in any closed interval as long as the window. */
  lemma AnyWindow(limit: int, window: int, arrivals: seq<Arrival>, ip: string, from: int)
    requires window >= 0 && Monotone(arrivals)
    ensures PassedDuring(Outcomes(limit, window, arrivals), ip, from, from + window) <= WindowBound(limit)
  {
    hide Outcomes, Buckets, History, DuringIn, PassedIn, PassedDuring;
    var os := Outcomes(limit, window, arrivals);
    var to := from + window;
    HistoryHolds(limit, window, arrivals, ip);
    if i: nat :| i < |os| && Seen(os[i], ip, from, to) {
      if j: nat :| j < |os| && Seen(os[j], ip, from, to) && os[j].resetAt != os[i].resetAt {
        var r, q := os[i].resetAt, os[j].resetAt;
        BucketBound(limit, window, arrivals, ip, r);
        BucketBound(limit, window, arrivals, ip, q);
        DuringAtMost(os, ip, r, from, to);
        DuringAtMost(os, ip, q, from, to);
        if limit >= 1 {
          if r < q { EarlierOpened(limit, window, os, ip, from, i, j); } else { EarlierOpened(limit, window, os, ip, from, j, i); }
          TwoBuckets(os, ip, from, to, r, q);
        } else {
          NonePass(limit, window, arrivals, ip, from, to);
        }
      } else {
        var r := os[i].resetAt;
        BucketBound(limit, window, arrivals, ip, r);
        DuringAtMost(os, ip, r, from, to);
        DuringAtMost(os, ip, r + 1, from, to);
        TwoBuckets(os, ip, from, to, r, r + 1);
      }
    } else {
      DuringAtMost(os, ip, 0, from, to);
      DuringAtMost(os, ip, 1, from, to);
      TwoBuckets(os, ip, from, to, 0, 1);
    }
  }

  lemma {:induction false} CountsPositive(window: int, arrivals: seq<Arrival>)
    ensures forall ip :: ip in Buckets(window, arrivals) ==> Buckets(window, arrivals)[ip].count >= 1
    decreases |arrivals|
  {
    if arrivals != [] {
      CountsPositive(window, arrivals[..|arrivals| - 1]);
    }
  }

  lemma {:induction false} NonePass(limit: int, window: int, arrivals: seq<Arrival>, ip: string, from: int, to: int)
    requires limit <= 0
    ensures PassedDuring(Outcomes(limit, window, arrivals), ip, from, to) == 0
    decreases |arrivals|
  {
    if arrivals != [] {
      var n := |arrivals| - 1;
      NonePass(limit, window, arrivals[..n], ip, from, to);
      CountsPositive(window, arrivals);
      var os := Outcomes(limit, window, arrivals);
      assert os[..n] == Outcomes(limit, window, arrivals[..n]);
    }
  }

  // ------------------------------------------------------------ the bound is met

  ghost function Burst(ip: string, at: int, n: nat): seq<Arrival> { if n == 0 then [] else Burst(ip, at, n - 1) + [Arrival(ip, at)] }

  lemma OneMore(limit: int, window: int, arrivals: seq<Arrival>, a: Arrival, ip: string, from: int, to: int)
    ensures var all := arrivals + [a];
            var b := Hit(window, Buckets(window, arrivals), a.ip, a.at);
            && Buckets(window, all) == b
            && PassedDuring(Outcomes(limit, window, all), ip, from, to)
               == PassedDuring(Outcomes(limit, window, arrivals), ip, from, to)
                  + if a.ip == ip && from <= a.at <= to && b[a.ip].count <= limit then 1 else 0
  {
    var all := arrivals + [a];
    assert all[..|arrivals|] == arrivals;
    var os := Outcomes(limit, window, all);
    assert os[..|os| - 1] == Outcomes(limit, window, arrivals);
  }

  /** n more requests at one instant of the current bucket. */
  lemma {:induction false} BurstPasses(limit: int, window: int, arrivals: seq<Arrival>, ip: string, at: int, n: nat, from: int, to: int)
    requires from <= at <= to && limit >= 0
    requires ip in Buckets(window, arrivals) && at <= Buckets(window, arrivals)[ip].resetAt
    ensures var b, c := Buckets(window, arrivals), Buckets(window, arrivals + Burst(ip, at, n));
            && ip in c && c[ip] == Bucket(b[ip].count + n, b[ip].resetAt)
            && PassedDuring(Outcomes(limit, window, arrivals + Burst(ip, at, n)), ip, from, to)
               == PassedDuring(Outcomes(limit, window, arrivals), ip, from, to) + Min(b[ip].count + n, limit) - Min(b[ip].count, limit)
    decreases n
  {
    hide Outcomes, Buckets, PassedDuring;
    if n == 0 {
      assert arrivals + [] == arrivals;
    } else {
      var before := arrivals + Burst(ip, at, n - 1);
      var all := arrivals + Burst(ip, at, n);
      assert all == before + [Arrival(ip, at)];
      BurstPasses(limit, window, arrivals, ip, at, n - 1, from, to);
      OneMore(limit, window, before, Arrival(ip, at), ip, from, to);
    }
  }

  /** One early request, limit - 1 at the end of its bucket, limit right after: 2 * limit - 1 pass within one window. */
  lemma WindowBoundMet(limit: int, window: int, ip: string) returns (arrivals: seq<Arrival>)
    requires limit >= 1 && window >= 1
    ensures Monotone(arrivals) && PassedDuring(Outcomes(limit, window, arrivals), ip, 1, 1 + window) == WindowBound(limit)
  {
    hide Outcomes, Buckets, PassedDuring, Burst;
    NoArrivals(limit, window, ip);
    var first := [Arrival(ip, 0)];
    assert [] + first == first;
    OneMore(limit, window, [], Arrival(ip, 0), ip, 1, 1 + window);
    BurstPasses(limit, window, first, ip, window, limit - 1, 1, 1 + window);
    var end := first + Burst(ip, window, limit - 1);
    OneMore(limit, window, end, Arrival(ip, window + 1), ip, 1, 1 + window);
    var next := end + [Arrival(ip, window + 1)];
    BurstPasses(limit, window, next, ip, window + 1, limit - 1, 1, 1 + window);
    arrivals := next + Burst(ip, window + 1, limit - 1);
    BurstAt(ip, window, limit - 1);
    BurstAt(ip, window + 1, limit - 1);
  }

  lemma NoArrivals(limit: int, window: int, ip: string)
    ensures Buckets(window, []) == map[] && PassedDuring(Outcomes(limit, window, []), ip, 1, 1 + window) == 0
  {}

  lemma {:induction false} BurstAt(ip: string, at: int, n: nat)
    ensures |Burst(ip, at, n)| == n && forall i :: 0 <= i < n ==> Burst(ip, at, n)[i].at == at
  {
    if n > 0 {
      BurstAt(ip, at, n - 1);
    }
  }
}
