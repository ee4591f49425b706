/** The circuit breaker: two critical sections around each call, interleaved by concurrent callers. */
module CircuitBreaker {
  import opened Common

  datatype Mode = Closed | Open | HalfOpen

  datatype Config = Config(maxFailures: int, openDuration: int, halfOpenMax: int) {
    ghost predicate Ok() { maxFailures >= 1 && openDuration >= 1 && halfOpenMax >= 1 }
  }

  const SECOND := 1_000_000_000

  function Defaults(cfg: Config): (r: Config)
    ensures r.Ok() && (cfg.Ok() ==> r == cfg)
  {
    Config(if cfg.maxFailures <= 0 then 5 else cfg.maxFailures,
           if cfg.openDuration <= 0 then 30 * SECOND else cfg.openDuration,
           if cfg.halfOpenMax <= 0 then 1 else cfg.halfOpenMax)
  }

  datatype State = State(mode: Mode, failures: int, tries: int, openUntil: int)

  const START := State(Closed, 0, 0, 0)

  function Admits(cfg: Config, s: State, now: int): bool {
    match s.mode
    case Closed => true
    case Open => now >= s.openUntil
    case HalfOpen => s.tries < cfg.halfOpenMax
  }

  function Before(cfg: Config, s: State, now: int): State {
    match s.mode
    case Closed => s
    case Open => if now < s.openUntil then s else s.(mode := HalfOpen, tries := 0)
    case HalfOpen => if s.tries < cfg.halfOpenMax then s.(tries := s.tries + 1) else s
  }

  function After(cfg: Config, s: State, failed: bool, now: int): State {
    if !failed then s.(failures := 0, mode := Closed)
    else if s.mode == HalfOpen || s.failures + 1 >= cfg.maxFailures
    then s.(mode := Open, openUntil := now + cfg.openDuration, failures := 0)
    else s.(failures := s.failures + 1)
  }

  class CircuitBreaker {
    const cfg: Config
    var mode: Mode
    var failures: int
    var tries: int
    var openUntil: int

    function Now(): State
      reads this
    {
      State(mode, failures, tries, openUntil)
    }

    constructor (cfg: Config)
      ensures this.cfg == Defaults(cfg) && Now() == START
    {
      this.cfg := Defaults(cfg);
      mode, failures, tries, openUntil := Closed, 0, 0, 0;
    }

    method BeforeCall(now: int) returns (r: Result<()>)
      modifies this
      ensures Now() == Before(cfg, old(Now()), now)
      ensures r == if Admits(cfg, old(Now()), now) then Ok(()) else Err(Unavailable)
    {
      match mode {
        case Open =>
          if now < openUntil {
            return Err(Unavailable);
          }
          mode := HalfOpen;
          tries := 0;
          return Ok(());
        case HalfOpen =>
          if tries >= cfg.halfOpenMax {
            return Err(Unavailable);
          }
          tries := tries + 1;
          return Ok(());
        case Closed =>
          return Ok(());
      }
    }

    method AfterCall(failed: bool, now: int)
      modifies this
      ensures Now() == After(cfg, old(Now()), failed, now)
    {
      if !failed {
        failures := 0;
        mode := Closed;
        return;
      }
      failures := failures + 1;
      if mode == HalfOpen || failures >= cfg.maxFailures {
        mode := Open;
        openUntil := now + cfg.openDuration;
        failures := 0;
      }
    }
  }

  // --------------------------------------------------------- concurrent callers

  /** The breaker with the number of admitted calls whose afterCall is still to come. */
  datatype World = World(s: State, now: int, inFlight: nat)

  datatype Step = Tick(elapsed: nat) | Arrive | Finish(failed: bool)

  ghost predicate Possible(w: World, step: Step) { step.Finish? ==> w.inFlight > 0 }

  ghost function Next(cfg: Config, w: World, step: Step): World
    requires Possible(w, step)
  {
    match step
    case Tick(elapsed) => w.(now := w.now + elapsed)
    case Arrive => w.(s := Before(cfg, w.s, w.now), inFlight := if Admits(cfg, w.s, w.now) then w.inFlight + 1 else w.inFlight)
    case Finish(failed) => w.(s := After(cfg, w.s, failed, w.now), inFlight := w.inFlight - 1)
  }

  /**
    Failures stay below the threshold; half-open tries stay within their limit,
    and while half-open the transition call and every counted try are all still
    in flight, so some outcome will arrive to leave the state.
   */
  ghost predicate Inv(cfg: Config, w: World) {
    && 0 <= w.s.failures < cfg.maxFailures
    && 0 <= w.s.tries <= cfg.halfOpenMax
    && (w.s.mode == HalfOpen ==> w.inFlight >= w.s.tries + 1)
  }

  ghost predicate Runs(cfg: Config, w: World, steps: seq<Step>)
    decreases |steps|
  {
    steps == [] || (Possible(w, steps[0]) && Runs(cfg, Next(cfg, w, steps[0]), steps[1..]))
  }

  ghost function End(cfg: Config, w: World, steps: seq<Step>): World
    requires Runs(cfg, w, steps)
    decreases |steps|
  {
    if steps == [] then w else End(cfg, Next(cfg, w, steps[0]), steps[1..])
  }

  lemma {:induction false} RunKeeps(cfg: Config, w: World, steps: seq<Step>)
    requires cfg.Ok() && Inv(cfg, w) && Runs(cfg, w, steps)
    ensures Inv(cfg, End(cfg, w, steps))
    decreases |steps|
  {
    if steps != [] {
      RunKeeps(cfg, Next(cfg, w, steps[0]), steps[1..]);
    }
  }

  /** In every interleaving: bounded failures, and a half-open breaker is never stuck. */
  lemma NeverStuck(cfg: Config, now: int, steps: seq<Step>)
    requires cfg.Ok() && Runs(cfg, World(START, now, 0), steps)
    ensures var w := End(cfg, World(START, now, 0), steps);
            && 0 <= w.s.failures < cfg.maxFailures
            && (w.s.mode == HalfOpen ==> w.inFlight > 0)
            && (w.s.mode == HalfOpen ==> forall failed :: Next(cfg, w, Finish(failed)).s.mode == if failed then Open else Closed)
  {
    RunKeeps(cfg, World(START, now, 0), steps);
  }

  /** Calls admitted along the run. */
  ghost function Admitted(cfg: Config, w: World, steps: seq<Step>): nat
    requires Runs(cfg, w, steps)
    decreases |steps|
  {
    if steps == [] then 0
    else (if steps[0].Arrive? && Admits(cfg, w.s, w.now) then 1 else 0) + Admitted(cfg, Next(cfg, w, steps[0]), steps[1..])
  }

  /** The breaker is half-open after every step of the run. */
  ghost predicate StaysHalfOpen(cfg: Config, w: World, steps: seq<Step>)
    requires Runs(cfg, w, steps)
    decreases |steps|
  {
    steps == [] || (Next(cfg, w, steps[0]).s.mode == HalfOpen && StaysHalfOpen(cfg, Next(cfg, w, steps[0]), steps[1..]))
  }

  /** Inside a half-open period admissions are the tries still unused. */
  lemma {:induction false} TriesBoundAdmissions(cfg: Config, w: World, steps: seq<Step>)
    requires Inv(cfg, w) && w.s.mode == HalfOpen && Runs(cfg, w, steps) && StaysHalfOpen(cfg, w, steps)
    ensures Admitted(cfg, w, steps) == End(cfg, w, steps).s.tries - w.s.tries
    ensures End(cfg, w, steps).s.tries <= cfg.halfOpenMax
    decreases |steps|
  {
    if steps != [] {
      TriesBoundAdmissions(cfg, Next(cfg, w, steps[0]), steps[1..]);
    }
  }

  /** A half-open period, with the step that opens it, admits at most halfOpenMax + 1 calls. */
  lemma ProbeBound(cfg: Config, w: World, steps: seq<Step>)
    requires cfg.Ok() && Inv(cfg, w) && w.s.mode == Open && steps != [] && Runs(cfg, w, steps) && StaysHalfOpen(cfg, w, steps)
    ensures steps[0] == Arrive && Admitted(cfg, w, steps) <= cfg.halfOpenMax + 1
  {
    TriesBoundAdmissions(cfg, Next(cfg, w, steps[0]), steps[1..]);
  }

  ghost function Arrivals(n: nat): (steps: seq<Step>)
    ensures |steps| == n
  {
    if n == 0 then [] else [Arrive] + Arrivals(n - 1)
  }

  lemma {:induction false} FillTries(cfg: Config, w: World, n: nat)
    requires w.s.mode == HalfOpen && 0 <= w.s.tries && w.s.tries + n <= cfg.halfOpenMax
    ensures Runs(cfg, w, Arrivals(n)) && StaysHalfOpen(cfg, w, Arrivals(n)) && Admitted(cfg, w, Arrivals(n)) == n
    decreases n
  {
    if n > 0 {
      FillTries(cfg, Next(cfg, w, Arrive), n - 1);
      assert Arrivals(n)[1..] == Arrivals(n - 1);
    }
  }

  /** The bound is reached: halfOpenMax + 1 callers arriving together after the open period all get through. */
  lemma ProbeBoundTight(cfg: Config, w: World)
    requires cfg.Ok() && w.s.mode == Open && w.now >= w.s.openUntil
    ensures var steps := Arrivals(cfg.halfOpenMax + 1);
            Runs(cfg, w, steps) && StaysHalfOpen(cfg, w, steps) && Admitted(cfg, w, steps) == cfg.halfOpenMax + 1
  {
    FillTries(cfg, Next(cfg, w, Arrive), cfg.halfOpenMax);
    assert Arrivals(cfg.halfOpenMax + 1)[1..] == Arrivals(cfg.halfOpenMax);
  }

  /** Before its time an open breaker is left in exactly one way: a call admitted earlier succeeds. */
  lemma OpenLeftEarly(cfg: Config, w: World, step: Step)
    requires cfg.Ok() && Inv(cfg, w) && w.s.mode == Open && w.now < w.s.openUntil && Possible(w, step)
    ensures Next(cfg, w, step).s.mode != Open <==> step == Finish(false)
  {}

  /** The outcome that trips the breaker. */
  ghost predicate Trips(cfg: Config, w: World, step: Step) {
    step == Finish(true) && (w.s.mode == HalfOpen || w.s.failures + 1 >= cfg.maxFailures)
  }

  /** Open at least until then, and exactly until then when nothing extended it. */
  ghost predicate OpenUntil(w: World, end: int, exactly: bool) {
    w.s.mode == Open && w.s.openUntil >= end && (exactly ==> w.s.openUntil == end)
  }

  /** No outcome of an admitted call arrives along the run. */
  ghost predicate NoOutcomes(steps: seq<Step>) { forall step :: step in steps ==> !step.Finish? }

  lemma {:induction false} StaysOpen(cfg: Config, w: World, steps: seq<Step>, end: int, exactly: bool)
    requires cfg.Ok() && Runs(cfg, w, steps) && Finish(false) !in steps && (exactly ==> NoOutcomes(steps))
    requires OpenUntil(w, end, exactly) && end <= w.now + cfg.openDuration && End(cfg, w, steps).now < end
    ensures w.now <= End(cfg, w, steps).now && Admitted(cfg, w, steps) == 0 && OpenUntil(End(cfg, w, steps), end, exactly)
    decreases |steps|
  {
    if steps != [] {
      var next := Next(cfg, w, steps[0]);
      TimeFlows(cfg, next, steps[1..]);
      assert steps[0] in steps && forall step :: step in steps[1..] ==> step in steps;
      StaysOpen(cfg, next, steps[1..], end, exactly);
    }
  }

  lemma {:induction false} TimeFlows(cfg: Config, w: World, steps: seq<Step>)
    requires Runs(cfg, w, steps)
    ensures w.now <= End(cfg, w, steps).now
    decreases |steps|
  {
    if steps != [] {
      TimeFlows(cfg, Next(cfg, w, steps[0]), steps[1..]);
    }
  }

  /**
    Whatever is interleaved, a breaker tripped at time T admits nobody before
    T + openDuration unless a call admitted earlier succeeds; and if no outcome
    comes in between, it admits the first arrival from that moment on.
   */
  lemma OpenPeriod(cfg: Config, w: World, steps: seq<Step>, elapsed: nat)
    requires cfg.Ok() && Possible(w, Finish(true)) && Trips(cfg, w, Finish(true))
    requires var tripped := Next(cfg, w, Finish(true));
             Runs(cfg, tripped, steps) && Finish(false) !in steps && End(cfg, tripped, steps).now < w.now + cfg.openDuration
    ensures var tripped := Next(cfg, w, Finish(true));
            var last := End(cfg, tripped, steps);
            && Admitted(cfg, tripped, steps) == 0 && last.s.mode == Open
            && (NoOutcomes(steps) ==>
                  (Admits(cfg, Next(cfg, last, Tick(elapsed)).s, last.now + elapsed) <==> last.now + elapsed >= w.now + cfg.openDuration))
  {
    StaysOpen(cfg, Next(cfg, w, Finish(true)), steps, w.now + cfg.openDuration, NoOutcomes(steps));
  }

  // ----------------------------------------------------------- one call at a time

  datatype Call = Call(at: int, failed: bool)

  /** Call: beforeCall, then afterCall when admitted. */
  function RunCall(cfg: Config, s: State, c: Call): State {
    if Admits(cfg, s, c.at) then After(cfg, Before(cfg, s, c.at), c.failed, c.at) else s
  }

  function RunCalls(cfg: Config, s: State, calls: seq<Call>): State {
    if calls == [] then s else RunCall(cfg, RunCalls(cfg, s, calls[..|calls| - 1]), calls[|calls| - 1])
  }

  /** What a caller sees of each call. */
  datatype Entry = Refused | Succeeded | Failed(at: int)

  function EntryOf(cfg: Config, s: State, c: Call): Entry {
    if !Admits(cfg, s, c.at) then Refused else if c.failed then Failed(c.at) else Succeeded
  }

  function Log(cfg: Config, s: State, calls: seq<Call>): (log: seq<Entry>)
    ensures |log| == |calls|
  {
    if calls == [] then []
    else
      var n := |calls| - 1;
      Log(cfg, s, calls[..n]) + [EntryOf(cfg, RunCalls(cfg, s, calls[..n]), calls[n])]
  }

  /** The log read on its own: so many failures in a row since the last success, or tripped at that time. */
  datatype Reading = Counting(failures: nat) | Tripped(at: int)

  function Read(log: seq<Entry>, max: int): (r: Reading)
    ensures max >= 1 && r.Counting? ==> r.failures < max
  {
    if log == [] then Counting(0)
    else
      var n := |log| - 1;
      match log[n]
      case Refused => Read(log[..n], max)
      case Succeeded => Counting(0)
      case Failed(at) =>
        match Read(log[..n], max)
        case Tripped(_) => Tripped(at)
        case Counting(k) => if k + 1 >= max then Tripped(at) else Counting(k + 1)
  }

  /** With sequential callers the breaker is open exactly when the log says it tripped, and otherwise counts the streak. */
  lemma {:induction false} SequentialMeaning(cfg: Config, calls: seq<Call>)
    requires cfg.Ok()
    ensures var s := RunCalls(cfg, START, calls);
            match Read(Log(cfg, START, calls), cfg.maxFailures)
            case Counting(k) => s.mode == Closed && s.failures == k
            case Tripped(at) => s.mode == Open && s.failures == 0 && s.openUntil == at + cfg.openDuration
    decreases |calls|
  {
    if calls != [] {
      var n := |calls| - 1;
      SequentialMeaning(cfg, calls[..n]);
      assert Log(cfg, START, calls)[..n] == Log(cfg, START, calls[..n]);
    }
  }

  /** The next sequential call is refused iff the log says the breaker tripped, less than openDuration before it. */
  lemma RefusedExactly(cfg: Config, calls: seq<Call>, at: int)
    requires cfg.Ok()
    ensures var reading := Read(Log(cfg, START, calls), cfg.maxFailures);
            !Admits(cfg, RunCalls(cfg, START, calls), at) <==> reading.Tripped? && at < reading.at + cfg.openDuration
  {
    SequentialMeaning(cfg, calls);
  }

  /** It trips the breaker iff it fails, and is the probe after the open period or completes the streak. */
  lemma TripsExactly(cfg: Config, calls: seq<Call>, c: Call)
    requires cfg.Ok()
    ensures var s := RunCalls(cfg, START, calls);
            (Admits(cfg, s, c.at) && RunCall(cfg, s, c).mode == Open) <==>
              c.failed && match Read(Log(cfg, START, calls), cfg.maxFailures)
                          case Tripped(at) => c.at >= at + cfg.openDuration
                          case Counting(k) => k + 1 == cfg.maxFailures
  {
    SequentialMeaning(cfg, calls);
  }

  ghost function Failures(n: nat, at: int): seq<Call> { if n == 0 then [] else Failures(n - 1, at) + [Call(at, true)] }

  /** From fresh, fewer than maxFailures failures in a row leave it closed, and exactly maxFailures open it, for openDuration. */
  lemma {:induction false} OpensAfterFailures(cfg: Config, n: nat, at: int)
    requires cfg.Ok() && n <= cfg.maxFailures
    ensures RunCalls(cfg, START, Failures(n, at)).mode == if n < cfg.maxFailures then Closed else Open
    ensures n < cfg.maxFailures ==> RunCalls(cfg, START, Failures(n, at)).failures == n
    ensures forall next :: Admits(cfg, RunCalls(cfg, START, Failures(n, at)), next) <==> n < cfg.maxFailures || next >= at + cfg.openDuration
    decreases n
  {
    if n > 0 {
      OpensAfterFailures(cfg, n - 1, at);
      assert Failures(n, at)[..|Failures(n, at)| - 1] == Failures(n - 1, at);
    }
  }

  /** As configured: five failures in a row, thirty seconds and one further probe wherever the configuration says nothing. */
  lemma AsConfigured(cfg: Config, n: nat, at: int, next: int)
    requires n <= Defaults(cfg).maxFailures
    ensures var d := Defaults(cfg);
            Admits(d, RunCalls(d, START, Failures(n, at)), next) <==>
              || n < (if cfg.maxFailures <= 0 then 5 else cfg.maxFailures)
              || next - at >= (if cfg.openDuration <= 0 then 30_000_000_000 else cfg.openDuration)
    ensures forall tries: int, now: int :: Admits(Defaults(cfg), State(HalfOpen, 0, tries, 0), now) <==>
              tries < (if cfg.halfOpenMax <= 0 then 1 else cfg.halfOpenMax)
  {
    OpensAfterFailures(Defaults(cfg), n, at);
  }
}
