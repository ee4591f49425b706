/** The job worker: claiming batches, running them a bounded number at a time, settling each, and draining on cancellation. */
module JobWorker {
  import opened Common
  import opened Retry

  // -------------------------------------------------------------- one job

  /** What becomes of a job handed to its handler. */
  datatype Handled = Succeeds | Errs(cause: string) | PanicsWith(value: string)

  /** The one call that settles it. */
  datatype Settlement = CompleteJob | FailJob(cause: string, backoff: int)

  /** The backoff used when none is configured. */
  const RETRY := Exponential(1_000_000_000, 600_000_000_000, 2.0, true)

  class Worker {
    const concurrency: int
    const batchSize: int
    var handlers: map<string, string -> Handled>

    /** Unset sizes: one job at a time, and a batch as large as that. */
    constructor (concurrency: int, batchSize: int)
      ensures this.concurrency >= 1 && this.batchSize >= 1 && handlers == map[]
      ensures concurrency >= 1 ==> this.concurrency == concurrency
      ensures this.batchSize == if batchSize >= 1 then batchSize else this.concurrency
    {
      var c := if concurrency < 1 then 1 else concurrency;
      this.concurrency := c;
      this.batchSize := if batchSize < 1 then c else batchSize;
      handlers := map[];
    }

    method Handle(kind: string, fn: string -> Handled)
      modifies this
      ensures handlers == old(handlers)[kind := fn]
    {
      handlers := handlers[kind := fn];
    }

    /** backoff: what the configured RetryBackoff gives for the job's attempts. A panic is recovered into an error. */
    method Process(kind: string, payload: string, backoff: int) returns (s: Settlement)
      ensures s.CompleteJob? <==> kind in handlers && handlers[kind](payload).Succeeds?
      ensures s.FailJob? ==> s.backoff == backoff
      ensures s.FailJob? && kind in handlers && handlers[kind](payload).Errs? ==> s.cause == handlers[kind](payload).cause
      ensures s.FailJob? && kind in handlers && handlers[kind](payload).PanicsWith? ==>
                s.cause == "jobs: handler panic: " + handlers[kind](payload).value
    {
      if kind !in handlers {
        return FailJob("jobs: no handler", backoff);
      }
      match handlers[kind](payload) {
        case Succeeds => s := CompleteJob;
        case Errs(cause) => s := FailJob(cause, backoff);
        case PanicsWith(value) => s := FailJob("jobs: handler panic: " + value, backoff);
      }
    }
  }

  /** The default backoff: a random share of one second doubled with every attempt, of at most ten minutes. */
  lemma DefaultBackoff(attempts: int, random: real)
    ensures var seconds := Doubled(1_000_000_000, if attempts < 1 then 0 else attempts - 1);
            RETRY.Delay(attempts, random) == (random * (if seconds > 600_000_000_000 then 600_000_000_000 else seconds) as real).Floor
  {
    DoublingDelays(RETRY, attempts, random);
  }

  /** It lies between zero and ten minutes, however many attempts there were. */
  lemma DefaultBackoffBounded(attempts: int, random: real)
    requires 0.0 <= random < 1.0
    ensures 0 <= RETRY.Delay(attempts, random) <= 600_000_000_000
  {
    DelaysCappedAndMonotone(RETRY, attempts, attempts, random);
  }

  // ----------------------------------------------------- the loop, interleaved

  datatype Phase = Polling | Draining | Stopped

  /** A goroutine: in its handler, or about to make its settling call. */
  datatype Stage = InHandler | Settling(ok: bool)

  /** A settling call: what it asked for, and whether it reached the database. */
  datatype Settled = Settled(ticket: nat, completed: bool, landed: bool)

  /**
    Claims are numbered as they come and started in that order: those from
    started on wait for a slot of the semaphore.
   */
  datatype State = State(phase: Phase, cancelled: bool, claimed: nat, started: nat, flights: map<nat, Stage>, settled: seq<Settled>)

  const START := State(Polling, false, 0, 0, map[], [])

  datatype Step = Claim(n: nat) | Start | Cancel | Drain | Stop | Return(ticket: nat, ok: bool) | Settle(ticket: nat, answered: bool)

  predicate Internal(step: Step) { !step.Claim? && !step.Cancel? }

  ghost predicate Enabled(slots: nat, batch: nat, s: State, step: Step) {
    match step
    case Claim(n) => s.phase.Polling? && !s.cancelled && s.started == s.claimed && n <= batch
    case Start => s.phase.Polling? && s.started < s.claimed && |s.flights| < slots
    case Cancel => true
    case Drain => s.phase.Polling? && s.cancelled && s.started == s.claimed
    case Stop => s.phase.Draining? && s.flights == map[]
    case Return(ticket, _) => ticket in s.flights && s.flights[ticket].InHandler?
    case Settle(ticket, _) => ticket in s.flights && s.flights[ticket].Settling?
  }

  ghost function Next(slots: nat, batch: nat, s: State, step: Step): State
    requires Enabled(slots, batch, s, step)
  {
    match step
    case Claim(n) => s.(claimed := s.claimed + n)
    case Start => s.(flights := s.flights[s.started := InHandler], started := s.started + 1)
    case Cancel => s.(cancelled := true)
    case Drain => s.(phase := Draining)
    case Stop => s.(phase := Stopped)
    case Return(ticket, ok) => s.(flights := s.flights[ticket := Settling(ok)])
    case Settle(ticket, answered) =>
      s.(flights := s.flights - {ticket},
         settled := s.settled + [Settled(ticket, s.flights[ticket].ok, answered && !s.cancelled)])
  }

  function Settlements(settled: seq<Settled>, ticket: nat): nat {
    if settled == [] then 0
    else Settlements(settled[..|settled| - 1], ticket) + if settled[|settled| - 1].ticket == ticket then 1 else 0
  }

  /** Every started job is running or settled once, every other one neither; never more than the slots at once. */
  ghost predicate Inv(slots: nat, batch: nat, s: State) {
    && |s.flights| <= slots && s.started <= s.claimed <= s.started + batch
    && (!s.phase.Polling? ==> s.started == s.claimed)
    && (s.phase.Stopped? ==> s.flights == map[])
    && forall t: nat :: Settlements(s.settled, t) + (if t in s.flights then 1 else 0) == if t < s.started then 1 else 0
  }

  lemma SettlementsSnoc(settled: seq<Settled>, x: Settled, t: nat)
    ensures Settlements(settled + [x], t) == Settlements(settled, t) + if x.ticket == t then 1 else 0
  {
    assert (settled + [x])[..|settled|] == settled;
  }

  lemma StepKeeps(slots: nat, batch: nat, s: State, step: Step)
    requires Inv(slots, batch, s) && Enabled(slots, batch, s, step)
    ensures Inv(slots, batch, Next(slots, batch, s, step))
  {
    var q := Next(slots, batch, s, step);
    match step {
      case Start =>
        assert s.started !in s.flights;
        assert q.flights.Keys == s.flights.Keys + {s.started};
      case Return(ticket, _) =>
        assert q.flights.Keys == s.flights.Keys;
      case Settle(ticket, answered) =>
        assert q.flights.Keys == s.flights.Keys - {ticket};
        forall t: nat ensures Settlements(q.settled, t) + (if t in q.flights then 1 else 0) == if t < q.started then 1 else 0 {
          SettlementsSnoc(s.settled, Settled(ticket, s.flights[ticket].ok, answered && !s.cancelled), t);
        }
      case _ =>
    }
  }

  ghost predicate Runs(slots: nat, batch: nat, s: State, steps: seq<Step>)
    decreases |steps|
  {
    steps == [] || (Enabled(slots, batch, s, steps[0]) && Runs(slots, batch, Next(slots, batch, s, steps[0]), steps[1..]))
  }

  ghost function After(slots: nat, batch: nat, s: State, steps: seq<Step>): State
    requires Runs(slots, batch, s, steps)
    decreases |steps|
  {
    if steps == [] then s else After(slots, batch, Next(slots, batch, s, steps[0]), steps[1..])
  }

  lemma {:induction false} RunKeeps(slots: nat, batch: nat, s: State, steps: seq<Step>)
    requires Inv(slots, batch, s) && Runs(slots, batch, s, steps)
    ensures Inv(slots, batch, After(slots, batch, s, steps))
    decreases |steps|
  {
    if steps != [] {
      StepKeeps(slots, batch, s, steps[0]);
      RunKeeps(slots, batch, Next(slots, batch, s, steps[0]), steps[1..]);
    }
  }

  /**
    In every interleaving no more jobs run at once than there are slots, no job
    gets two settling calls, and once the worker has stopped every job it ever
    claimed got exactly one; whether those calls land is another matter.
   */
  lemma OneSettlingCall(slots: nat, batch: nat, steps: seq<Step>, t: nat)
    requires Runs(slots, batch, START, steps)
    ensures var s := After(slots, batch, START, steps);
            && |s.flights| <= slots && Settlements(s.settled, t) <= 1
            && (s.phase.Stopped? ==> Settlements(s.settled, t) == if t < s.claimed then 1 else 0)
  {
    assert Inv(slots, batch, START);
    RunKeeps(slots, batch, START, steps);
  }

  // --------------------------------------------------- settling calls that land

  /** The handler's context is the worker's: a settling call made after cancellation fails at once. */
  ghost predicate Landed(settled: seq<Settled>, t: nat) {
    exists i :: 0 <= i < |settled| && settled[i].ticket == t && settled[i].landed
  }

  lemma LandedSnoc(settled: seq<Settled>, x: Settled, t: nat)
    ensures Landed(settled + [x], t) <==> Landed(settled, t) || (x.ticket == t && x.landed)
  {
    var all := settled + [x];
    if Landed(settled, t) {
      var i :| 0 <= i < |settled| && settled[i].ticket == t && settled[i].landed;
      assert all[i] == settled[i];
    }
    if x.ticket == t && x.landed {
      assert all[|settled|] == x;
    }
  }

  /** The job's settling call comes before any cancellation and is answered. */
  ghost predicate SettledInTime(steps: seq<Step>, t: nat) {
    exists k :: 0 <= k < |steps| && steps[k] == Settle(t, true) && forall j :: 0 <= j < k ==> !steps[j].Cancel?
  }

  lemma InTimeStep(steps: seq<Step>, t: nat)
    requires steps != []
    ensures SettledInTime(steps, t) <==> steps[0] == Settle(t, true) || (!steps[0].Cancel? && SettledInTime(steps[1..], t))
  {
    if SettledInTime(steps, t) && steps[0] != Settle(t, true) {
      var k :| 0 <= k < |steps| && steps[k] == Settle(t, true) && forall j :: 0 <= j < k ==> !steps[j].Cancel?;
      assert steps[1..][k - 1] == steps[k] && forall j :: 0 <= j < k - 1 ==> steps[1..][j] == steps[j + 1];
    }
    if !steps[0].Cancel? && SettledInTime(steps[1..], t) {
      var k :| 0 <= k < |steps[1..]| && steps[1..][k] == Settle(t, true) && forall j :: 0 <= j < k ==> !steps[1..][j].Cancel?;
      assert forall j :: 0 < j < k + 1 ==> steps[j] == steps[1..][j - 1];
      assert steps[k + 1] == Settle(t, true);
    }
  }

  lemma StepLands(slots: nat, batch: nat, s: State, step: Step, t: nat)
    requires Enabled(slots, batch, s, step)
    ensures Landed(Next(slots, batch, s, step).settled, t) <==> Landed(s.settled, t) || (!s.cancelled && step == Settle(t, true))
    ensures Next(slots, batch, s, step).cancelled <==> s.cancelled || step.Cancel?
  {
    if step.Settle? {
      LandedSnoc(s.settled, Settled(step.ticket, s.flights[step.ticket].ok, step.answered && !s.cancelled), t);
    }
  }

  lemma {:induction false} RunLands(slots: nat, batch: nat, s: State, steps: seq<Step>, t: nat)
    requires Runs(slots, batch, s, steps)
    ensures Landed(After(slots, batch, s, steps).settled, t) <==> Landed(s.settled, t) || (!s.cancelled && SettledInTime(steps, t))
    decreases |steps|
  {
    if steps != [] {
      StepLands(slots, batch, s, steps[0], t);
      InTimeStep(steps, t);
      hide Landed, SettledInTime, Enabled, Next;
      RunLands(slots, batch, Next(slots, batch, s, steps[0]), steps[1..], t);
    }
  }

  /** In every run a claimed job is durably settled if and only if its settling call was made before cancellation and answered. */
  lemma LandsExactly(slots: nat, batch: nat, steps: seq<Step>, t: nat)
    requires Runs(slots, batch, START, steps)
    ensures Landed(After(slots, batch, START, steps).settled, t) <==> SettledInTime(steps, t)
  {
    RunLands(slots, batch, START, steps, t);
  }

  /** A worker stopped after its only job succeeded, the success nowhere recorded: the job returned after cancellation. */
  lemma SuccessUnrecorded() returns (steps: seq<Step>)
    ensures Runs(1, 1, START, steps)
    ensures var s := After(1, 1, START, steps);
            s.phase.Stopped? && s.claimed == 1 && s.settled == [Settled(0, true, false)] && !Landed(s.settled, 0)
  {
    var s0 := START;
    var s1 := Next(1, 1, s0, Claim(1));
    var s2 := Next(1, 1, s1, Start);
    var s3 := Next(1, 1, s2, Cancel);
    var s4 := Next(1, 1, s3, Return(0, true));
    var s5 := Next(1, 1, s4, Drain);
    var s6 := Next(1, 1, s5, Settle(0, true));
    assert s6.flights == map[];
    var s7 := Next(1, 1, s6, Stop);
    assert s7.phase.Stopped? && s7.claimed == 1 && s7.settled == [Settled(0, true, false)] && !Landed(s7.settled, 0);
    assert Enabled(1, 1, s0, Claim(1)) && Enabled(1, 1, s1, Start) && Enabled(1, 1, s2, Cancel) && Enabled(1, 1, s3, Return(0, true));
    assert Enabled(1, 1, s4, Drain) && Enabled(1, 1, s5, Settle(0, true)) && Enabled(1, 1, s6, Stop);
    assert Runs(1, 1, s7, []) && After(1, 1, s7, []) == s7;
    hide Enabled, Next, Runs, After, Landed;
    Prefixed(1, 1, s6, Stop, []);
    Prefixed(1, 1, s5, Settle(0, true), [Stop] + []);
    Prefixed(1, 1, s4, Drain, [Settle(0, true)] + ([Stop] + []));
    Prefixed(1, 1, s3, Return(0, true), [Drain] + ([Settle(0, true)] + ([Stop] + [])));
    Prefixed(1, 1, s2, Cancel, [Return(0, true)] + ([Drain] + ([Settle(0, true)] + ([Stop] + []))));
    Prefixed(1, 1, s1, Start, [Cancel] + ([Return(0, true)] + ([Drain] + ([Settle(0, true)] + ([Stop] + [])))));
    Prefixed(1, 1, s0, Claim(1), [Start] + ([Cancel] + ([Return(0, true)] + ([Drain] + ([Settle(0, true)] + ([Stop] + []))))));
    steps := [Claim(1)] + ([Start] + ([Cancel] + ([Return(0, true)] + ([Drain] + ([Settle(0, true)] + ([Stop] + []))))));
  }

  lemma Prefixed(slots: nat, batch: nat, s: State, step: Step, rest: seq<Step>)
    requires Enabled(slots, batch, s, step) && Runs(slots, batch, Next(slots, batch, s, step), rest)
    ensures Runs(slots, batch, s, [step] + rest)
    ensures After(slots, batch, s, [step] + rest) == After(slots, batch, Next(slots, batch, s, step), rest)
  {
    hide Enabled, Next;
    assert ([step] + rest)[1..] == rest;
  }

  // ------------------------------------------------------------------ shutdown

  ghost function Weight(stage: Stage): nat { if stage.InHandler? then 2 else 1 }

  ghost function FlightWork(flights: map<nat, Stage>, upTo: nat): nat {
    if upTo == 0 then 0
    else FlightWork(flights, upTo - 1) + if upTo - 1 in flights then Weight(flights[upTo - 1]) else 0
  }

  /** Steps left after cancellation. */
  ghost function Rank(s: State): nat
    requires s.started <= s.claimed
  {
    3 * (s.claimed - s.started) + FlightWork(s.flights, s.started)
    + match s.phase case Polling => 2 case Draining => 1 case Stopped => 0
  }

  lemma {:induction false} FlightWorkUpdate(a: map<nat, Stage>, b: map<nat, Stage>, upTo: nat, t: nat)
    requires forall k :: k != t ==> (k in a <==> k in b) && (k in a ==> a[k] == b[k])
    ensures var wa := if t in a then Weight(a[t]) else 0; var wb := if t in b then Weight(b[t]) else 0;
            t < upTo ==> FlightWork(b, upTo) == FlightWork(a, upTo) - wa + wb
    ensures t >= upTo ==> FlightWork(b, upTo) == FlightWork(a, upTo)
  {
    if upTo > 0 {
      FlightWorkUpdate(a, b, upTo - 1, t);
    }
  }

  lemma StepsDescend(slots: nat, batch: nat, s: State, step: Step)
    requires Inv(slots, batch, s) && Enabled(slots, batch, s, step) && Internal(step)
    ensures var q := Next(slots, batch, s, step); q.started <= q.claimed && Rank(q) < Rank(s)
  {
    var q := Next(slots, batch, s, step);
    StepKeeps(slots, batch, s, step);
    match step {
      case Start => FlightWorkUpdate(s.flights, q.flights, s.started, s.started);
      case Return(ticket, _) =>
        assert ticket < s.started;
        FlightWorkUpdate(s.flights, q.flights, s.started, ticket);
      case Settle(ticket, _) =>
        assert ticket < s.started;
        FlightWorkUpdate(s.flights, q.flights, s.started, ticket);
      case _ =>
    }
  }

  /** After cancellation and until it has stopped, the worker or one of its jobs can always move. */
  lemma ShutdownProgress(slots: nat, batch: nat, s: State) returns (step: Step)
    requires slots >= 1 && Inv(slots, batch, s) && s.cancelled && !s.phase.Stopped?
    ensures Internal(step) && Enabled(slots, batch, s, step)
  {
    if s.flights != map[] {
      var t :| t in s.flights;
      step := if s.flights[t].InHandler? then Return(t, true) else Settle(t, true);
    } else if s.phase.Draining? {
      step := Stop;
    } else if s.started < s.claimed {
      assert |s.flights| == 0;
      step := Start;
    } else {
      step := Drain;
    }
  }

  /** A cancelled worker whose handlers return is stopped by any schedule that goes on for as long as it can, within its rank. */
  lemma {:induction false} ShutdownEnds(slots: nat, batch: nat, s: State, steps: seq<Step>)
    requires slots >= 1 && Inv(slots, batch, s) && s.cancelled && Runs(slots, batch, s, steps)
    requires forall step :: step in steps ==> Internal(step)
    ensures |steps| <= Rank(s)
    ensures (forall step :: Internal(step) ==> !Enabled(slots, batch, After(slots, batch, s, steps), step))
        ==> After(slots, batch, s, steps).phase.Stopped?
    decreases |steps|
  {
    if steps == [] {
      if !s.phase.Stopped? {
        var step := ShutdownProgress(slots, batch, s);
      }
    } else {
      StepKeeps(slots, batch, s, steps[0]);
      StepsDescend(slots, batch, s, steps[0]);
      ShutdownEnds(slots, batch, Next(slots, batch, s, steps[0]), steps[1..]);
    }
  }

  /**
    A claimed job can wait for a slot while its lease runs and nobody heartbeats
    for it, even with one slot and batches of one: the next claim is made while
    the first job still runs.
   */
  lemma ClaimedJobsWait(batch: nat) returns (steps: seq<Step>)
    requires batch >= 1
    ensures Runs(1, batch, START, steps)
    ensures var s := After(1, batch, START, steps); |s.flights| == 1 && s.started < s.claimed
  {
    steps := [Claim(1), Start, Claim(1)];
    assert steps[1..] == [Start, Claim(1)] && steps[1..][1..] == [Claim(1)] && steps[1..][1..][1..] == [];
    var s1 := Next(1, batch, START, Claim(1));
    assert |s1.flights| == 0;
    var s2 := Next(1, batch, s1, Start);
    assert s2.flights.Keys == {0};
    var s3 := Next(1, batch, s2, Claim(1));
    assert Runs(1, batch, s2, [Claim(1)]) && After(1, batch, s2, [Claim(1)]) == s3;
    assert Runs(1, batch, s1, [Start, Claim(1)]) && After(1, batch, s1, [Start, Claim(1)]) == s3;
  }
}
