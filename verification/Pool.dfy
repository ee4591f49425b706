/**
  The worker pool as interleaved atomic steps: submitters take the read lock
  and send, closers take the write lock and close the channel, workers receive.
  A task is named by the index of the Submit call that brought it.
 */
module Pool {
  import opened Common

  datatype Worker = Idle | Busy(task: nat) | Exited

  datatype Outcome = Accepted | PoolClosed | ShuttingDown

  /** A Submit call: waiting for the read lock, testing closed, in the select, unlocking, back. */
  datatype Submit = Arriving | Testing | Sending | Unlocking(o: Outcome) | Returned(o: Outcome)

  /** A Close call; Done(true) closed the channel itself and waited, Done(false) found it closed. */
  datatype Closer = Calling | Announced | Locked | Draining | Cancelling | Done(drained: bool)

  datatype Pool = Pool(
    capacity: nat, chan: seq<nat>, chanClosed: bool, closed: bool, cancelled: bool,
    outside: bool,                      // Stop or the parent context has cancelled the pool
    workers: seq<Worker>, submits: seq<Submit>, closers: seq<Closer>,
    ran: seq<nat>,                      // tasks in the order they finished
    panicked: bool)

  function NewPool(workers: int, queueSize: nat): Pool {
    Pool(queueSize, [], false, false, false, false, seq(if workers < 1 then 1 else workers, _ => Idle), [], [], [], false)
  }

  datatype Step =
    | NewSubmit | NewClose | Cancel
    | RLock(i: nat) | Test(i: nat) | SendBuffered(i: nat) | Handoff(i: nat, w: nat) | GiveUp(i: nat) | RUnlock(i: nat)
    | Take(w: nat) | Finish(w: nat) | Quit(w: nat)
    | Announce(c: nat) | Acquire(c: nat) | CloseChan(c: nat) | Drained(c: nat) | CancelOwn(c: nat)

  /** Steps of calls and workers already there, as opposed to new calls and outside cancellation. */
  predicate Internal(step: Step) { !step.NewSubmit? && !step.NewClose? && !step.Cancel? }

  predicate Reading(s: Submit) { s.Testing? || s.Sending? || s.Unlocking? }

  predicate Writing(c: Closer) { c.Announced? || c.Locked? }

  ghost predicate NoReaders(p: Pool) { forall i :: 0 <= i < |p.submits| ==> !Reading(p.submits[i]) }

  ghost predicate NoWriters(p: Pool) { forall c :: 0 <= c < |p.closers| ==> !Writing(p.closers[c]) }

  ghost predicate AllExited(p: Pool) { forall w :: 0 <= w < |p.workers| ==> p.workers[w] == Exited }

  ghost predicate Enabled(p: Pool, step: Step) {
    match step
    case NewSubmit => true
    case NewClose => true
    case Cancel => true
    case RLock(i) => i < |p.submits| && p.submits[i] == Arriving && NoWriters(p)
    case Test(i) => i < |p.submits| && p.submits[i] == Testing
    case SendBuffered(i) => i < |p.submits| && p.submits[i] == Sending && (p.chanClosed || |p.chan| < p.capacity)
    case Handoff(i, w) => i < |p.submits| && p.submits[i] == Sending && !p.chanClosed && p.chan == []
                          && w < |p.workers| && p.workers[w] == Idle
    case GiveUp(i) => i < |p.submits| && p.submits[i] == Sending && p.cancelled
    case RUnlock(i) => i < |p.submits| && p.submits[i].Unlocking?
    case Take(w) => w < |p.workers| && p.workers[w] == Idle && p.chan != []
    case Finish(w) => w < |p.workers| && p.workers[w].Busy?
    case Quit(w) => w < |p.workers| && p.workers[w] == Idle && (p.cancelled || (p.chanClosed && p.chan == []))
    case Announce(c) => c < |p.closers| && p.closers[c] == Calling && NoWriters(p)
    case Acquire(c) => c < |p.closers| && p.closers[c] == Announced && NoReaders(p)
    case CloseChan(c) => c < |p.closers| && p.closers[c] == Locked
    case Drained(c) => c < |p.closers| && p.closers[c] == Draining && AllExited(p)
    case CancelOwn(c) => c < |p.closers| && p.closers[c] == Cancelling
  }

  ghost function Next(p: Pool, step: Step): Pool
    requires Enabled(p, step)
  {
    match step
    case NewSubmit => p.(submits := p.submits + [Arriving])
    case NewClose => p.(closers := p.closers + [Calling])
    case Cancel => p.(cancelled := true, outside := true)
    case RLock(i) => p.(submits := p.submits[i := Testing])
    case Test(i) => p.(submits := p.submits[i := if p.closed then Unlocking(PoolClosed) else Sending])
    case SendBuffered(i) =>
      if p.chanClosed then p.(panicked := true)
      else p.(submits := p.submits[i := Unlocking(Accepted)], chan := p.chan + [i])
    case Handoff(i, w) => p.(submits := p.submits[i := Unlocking(Accepted)], workers := p.workers[w := Busy(i)])
    case GiveUp(i) => p.(submits := p.submits[i := Unlocking(ShuttingDown)])
    case RUnlock(i) => p.(submits := p.submits[i := Returned(p.submits[i].o)])
    case Take(w) => p.(workers := p.workers[w := Busy(p.chan[0])], chan := p.chan[1..])
    case Finish(w) => p.(workers := p.workers[w := Idle], ran := p.ran + [p.workers[w].task])
    case Quit(w) => p.(workers := p.workers[w := Exited])
    case Announce(c) => p.(closers := p.closers[c := Announced])
    case Acquire(c) => p.(closers := p.closers[c := Locked])
    case CloseChan(c) =>
      if p.closed then p.(closers := p.closers[c := Done(false)])
      else if p.chanClosed then p.(panicked := true)
      else p.(closed := true, chanClosed := true, closers := p.closers[c := Draining])
    case Drained(c) => p.(closers := p.closers[c := Cancelling])
    case CancelOwn(c) => p.(cancelled := true, closers := p.closers[c := Done(true)])
  }

  // ------------------------------------------------------------- accounting

  predicate IsAccepted(s: Submit) { s == Unlocking(Accepted) || s == Returned(Accepted) }

  /** 1 when the Submit call named task has been, or is about to be, told nil. */
  ghost function AcceptedCount(submits: seq<Submit>, task: nat): nat {
    if task < |submits| && IsAccepted(submits[task]) then 1 else 0
  }

  ghost function Held(w: Worker, task: nat): nat { if w == Busy(task) then 1 else 0 }

  ghost function InHand(workers: seq<Worker>, task: nat): nat {
    if workers == [] then 0 else Held(workers[0], task) + InHand(workers[1..], task)
  }

  lemma {:induction false} InHandUpdate(workers: seq<Worker>, w: nat, x: Worker, task: nat)
    requires w < |workers|
    ensures InHand(workers[w := x], task) + Held(workers[w], task) == InHand(workers, task) + Held(x, task)
  {
    if w == 0 {
      assert workers[0 := x][1..] == workers[1..];
    } else {
      InHandUpdate(workers[1..], w - 1, x, task);
      assert workers[w := x][1..] == workers[1..][w - 1 := x];
    }
  }

  ghost function Queued(chan: seq<nat>, task: nat): nat { multiset(chan)[task] }

  ghost function Executions(p: Pool, task: nat): nat { multiset(p.ran)[task] }

  /** Every accepted task is in exactly one place: queued, in a worker's hands, or finished. */
  ghost predicate InOnePlace(p: Pool, task: nat) {
    Queued(p.chan, task) + InHand(p.workers, task) + Executions(p, task) == AcceptedCount(p.submits, task)
  }

  ghost predicate Conserved(p: Pool) { forall task: nat :: InOnePlace(p, task) }

  lemma WorkerStepConserves(p: Pool, step: Step, task: nat)
    requires InOnePlace(p, task) && Enabled(p, step) && (step.Handoff? || step.Take? || step.Finish? || step.Quit?)
    ensures InOnePlace(Next(p, step), task)
  {
    match step {
      case Handoff(i, w) => InHandUpdate(p.workers, w, Busy(i), task);
      case Take(w) =>
        InHandUpdate(p.workers, w, Busy(p.chan[0]), task);
        assert p.chan == [p.chan[0]] + p.chan[1..];
      case Finish(w) => InHandUpdate(p.workers, w, Idle, task);
      case Quit(w) => InHandUpdate(p.workers, w, Exited, task);
    }
  }

  lemma CallStepConserves(p: Pool, step: Step, task: nat)
    requires InOnePlace(p, task) && Enabled(p, step) && !(step.Handoff? || step.Take? || step.Finish? || step.Quit?)
    ensures InOnePlace(Next(p, step), task)
  {}

  lemma StepConserves(p: Pool, step: Step)
    requires Conserved(p) && Enabled(p, step)
    ensures Conserved(Next(p, step))
  {
    forall task: nat ensures InOnePlace(Next(p, step), task) {
      assert InOnePlace(p, task);
      if step.Handoff? || step.Take? || step.Finish? || step.Quit? {
        WorkerStepConserves(p, step, task);
      } else {
        CallStepConserves(p, step, task);
      }
    }
  }

  // -------------------------------------------------- locks and the channel

  ghost predicate LocksOk(p: Pool) {
    && p.closed == p.chanClosed && !p.panicked
    && (forall c, d :: 0 <= c < |p.closers| && 0 <= d < |p.closers| && Writing(p.closers[c]) && Writing(p.closers[d]) ==> c == d)
    && (forall c :: 0 <= c < |p.closers| && p.closers[c] == Locked ==> NoReaders(p))
    && (p.closed ==> forall i :: 0 <= i < |p.submits| ==> p.submits[i] != Sending)
    && (forall c :: 0 <= c < |p.closers| && (p.closers[c].Draining? || p.closers[c].Cancelling? || p.closers[c].Done?) ==> p.closed)
  }

  lemma StepKeepsLocks(p: Pool, step: Step)
    requires LocksOk(p) && Enabled(p, step)
    ensures LocksOk(Next(p, step))
  {}

  ghost predicate ExitsOk(p: Pool) {
    && |p.workers| >= 1 && (p.outside ==> p.cancelled)
    && (!p.outside && (exists w :: 0 <= w < |p.workers| && p.workers[w] == Exited) ==> p.chanClosed && p.chan == [])
    && (!p.outside && p.cancelled ==> AllExited(p))
    && (forall c :: 0 <= c < |p.closers| && (p.closers[c].Cancelling? || p.closers[c] == Done(true)) ==> AllExited(p))
  }

  lemma StepKeepsExits(p: Pool, step: Step)
    requires LocksOk(p) && ExitsOk(p) && Enabled(p, step)
    ensures ExitsOk(Next(p, step))
  {
    var q := Next(p, step);
    forall c | 0 <= c < |q.closers| && (q.closers[c].Cancelling? || q.closers[c] == Done(true)) ensures AllExited(q) {
      if c < |p.closers| && (p.closers[c].Cancelling? || p.closers[c] == Done(true)) {
        assert AllExited(p);
      }
    }
  }

  ghost predicate Inv(p: Pool) { Conserved(p) && LocksOk(p) && ExitsOk(p) }

  ghost predicate Runs(p: Pool, steps: seq<Step>)
    decreases |steps|
  {
    steps == [] || (Enabled(p, steps[0]) && Runs(Next(p, steps[0]), steps[1..]))
  }

  ghost function After(p: Pool, steps: seq<Step>): Pool
    requires Runs(p, steps)
    decreases |steps|
  {
    if steps == [] then p else After(Next(p, steps[0]), steps[1..])
  }

  lemma {:induction false} RunKeeps(p: Pool, steps: seq<Step>)
    requires Inv(p) && Runs(p, steps)
    ensures Inv(After(p, steps))
    decreases |steps|
  {
    if steps != [] {
      StepConserves(p, steps[0]);
      StepKeepsLocks(p, steps[0]);
      StepKeepsExits(p, steps[0]);
      RunKeeps(Next(p, steps[0]), steps[1..]);
    }
  }

  lemma {:induction false} AllIdle(workers: seq<Worker>)
    requires forall w :: 0 <= w < |workers| ==> !workers[w].Busy?
    ensures forall task :: InHand(workers, task) == 0
  {
    if workers != [] {
      AllIdle(workers[1..]);
    }
  }

  lemma NewPoolInv(workers: int, queueSize: nat)
    ensures Inv(NewPool(workers, queueSize))
  {
    AllIdle(NewPool(workers, queueSize).workers);
  }

  /** No interleaving sends on, or closes, the closed channel. */
  lemma NoPanic(workers: int, queueSize: nat, steps: seq<Step>)
    requires Runs(NewPool(workers, queueSize), steps)
    ensures !After(NewPool(workers, queueSize), steps).panicked
  {
    NewPoolInv(workers, queueSize);
    RunKeeps(NewPool(workers, queueSize), steps);
  }

  /** No task runs twice, and none runs whose Submit was refused, even when the pool is stopped. */
  lemma AtMostOnce(workers: int, queueSize: nat, steps: seq<Step>, task: nat)
    requires Runs(NewPool(workers, queueSize), steps)
    ensures var p := After(NewPool(workers, queueSize), steps);
            Executions(p, task) <= AcceptedCount(p.submits, task) <= 1
  {
    NewPoolInv(workers, queueSize);
    RunKeeps(NewPool(workers, queueSize), steps);
    var p := After(NewPool(workers, queueSize), steps);
    assert InOnePlace(p, task);
  }

  /** With no outside cancellation, the Close call that drained returns only after every accepted task ran exactly once. */
  lemma ExactlyOnce(workers: int, queueSize: nat, steps: seq<Step>, c: nat)
    requires Runs(NewPool(workers, queueSize), steps)
    requires var p := After(NewPool(workers, queueSize), steps);
             !p.outside && c < |p.closers| && p.closers[c] == Done(true)
    ensures var p := After(NewPool(workers, queueSize), steps);
            forall task: nat :: Executions(p, task) == AcceptedCount(p.submits, task)
  {
    NewPoolInv(workers, queueSize);
    RunKeeps(NewPool(workers, queueSize), steps);
    var p := After(NewPool(workers, queueSize), steps);
    AllIdle(p.workers);
    assert p.workers[0] == Exited;
    forall task: nat ensures Executions(p, task) == AcceptedCount(p.submits, task) {
      assert InOnePlace(p, task);
    }
  }

  /** A repeated Close is idempotent, and for that reason does not wait: queued and running tasks stay where they are. */
  lemma SecondCloseReturnsEarly(p: Pool, c: nat)
    requires Inv(p) && p.closed && NoWriters(p) && NoReaders(p) && c < |p.closers| && p.closers[c] == Calling
    ensures Runs(p, [Announce(c), Acquire(c), CloseChan(c)])
    ensures After(p, [Announce(c), Acquire(c), CloseChan(c)]) == p.(closers := p.closers[c := Done(false)])
  {
    var p1 := Next(p, Announce(c));
    var p2 := Next(p1, Acquire(c));
    var p3 := Next(p2, CloseChan(c));
    assert [Announce(c), Acquire(c), CloseChan(c)][1..] == [Acquire(c), CloseChan(c)];
    assert [Acquire(c), CloseChan(c)][1..] == [CloseChan(c)];
    assert Runs(p3, []) && Runs(p2, [CloseChan(c)]) && Runs(p1, [Acquire(c), CloseChan(c)]);
    assert After(p3, []) == p3 && After(p2, [CloseChan(c)]) == p3 && After(p1, [Acquire(c), CloseChan(c)]) == p3;
    assert p3.closers == p.closers[c := Done(false)];
    assert p3 == p.(closers := p.closers[c := Done(false)]);
  }

  // ---------------------------------------------------------------- progress

  /** If some call has not returned, some internal step is enabled. */
  lemma SubmitProgress(p: Pool, i: nat) returns (step: Step)
    requires Inv(p) && i < |p.submits| && Reading(p.submits[i])
    ensures Internal(step) && Enabled(p, step)
  {
    match p.submits[i] {
      case Testing => step := Test(i);
      case Unlocking(_) => step := RUnlock(i);
      case Sending =>
        if p.cancelled {
          step := GiveUp(i);
        } else if |p.chan| < p.capacity {
          step := SendBuffered(i);
        } else {
          assert p.workers[0] != Exited;
          step := if p.workers[0].Busy? then Finish(0) else if p.chan != [] then Take(0) else Handoff(i, 0);
        }
    }
  }

  lemma CloseProgress(p: Pool, c: nat) returns (step: Step)
    requires Inv(p) && c < |p.closers| && !p.closers[c].Done? && !p.closers[c].Calling?
    ensures Internal(step) && Enabled(p, step)
  {
    match p.closers[c] {
      case Announced =>
        if i: nat :| i < |p.submits| && Reading(p.submits[i]) {
          step := SubmitProgress(p, i);
        } else {
          step := Acquire(c);
        }
      case Locked => step := CloseChan(c);
      case Draining =>
        if w: nat :| w < |p.workers| && p.workers[w] != Exited {
          step := if p.workers[w].Busy? then Finish(w) else if p.chan != [] then Take(w) else Quit(w);
        } else {
          step := Drained(c);
        }
      case Cancelling => step := CancelOwn(c);
    }
  }

  /** Nothing gets stuck: while a Submit or Close call is open, somebody can move. */
  lemma Progress(p: Pool) returns (step: Step)
    requires Inv(p)
    requires (exists i :: 0 <= i < |p.submits| && !p.submits[i].Returned?) || (exists c :: 0 <= c < |p.closers| && !p.closers[c].Done?)
    ensures Internal(step) && Enabled(p, step)
  {
    if c: nat :| c < |p.closers| && !p.closers[c].Done? && !p.closers[c].Calling? {
      step := CloseProgress(p, c);
    } else if i: nat :| i < |p.submits| && Reading(p.submits[i]) {
      step := SubmitProgress(p, i);
    } else if i: nat :| i < |p.submits| && p.submits[i] == Arriving {
      step := RLock(i);
    } else {
      var c: nat :| c < |p.closers| && p.closers[c] == Calling;
      step := Announce(c);
    }
  }

  // ------------------------------------------------------------- termination

  function SubmitWeight(s: Submit): nat {
    match s case Arriving => 6 case Testing => 5 case Sending => 4 case Unlocking(_) => 1 case Returned(_) => 0
  }

  function CloserWeight(c: Closer): nat {
    match c case Calling => 5 case Announced => 4 case Locked => 3 case Draining => 2 case Cancelling => 1 case Done(_) => 0
  }

  function WorkerWeight(w: Worker): nat {
    match w case Idle => 1 case Busy(_) => 2 case Exited => 0
  }

  ghost function Sum<T>(weight: T -> nat, s: seq<T>): nat {
    if s == [] then 0 else weight(s[0]) + Sum(weight, s[1..])
  }

  lemma {:induction false} SumUpdate<T>(weight: T -> nat, s: seq<T>, i: nat, x: T)
    requires i < |s|
    ensures Sum(weight, s[i := x]) + weight(s[i]) == Sum(weight, s) + weight(x)
  {
    if i == 0 {
      assert s[0 := x][1..] == s[1..];
    } else {
      SumUpdate(weight, s[1..], i - 1, x);
      assert s[i := x][1..] == s[1..][i - 1 := x];
    }
  }

  /** Work left: bounds the internal steps still possible. */
  ghost function Rank(p: Pool): nat {
    Sum(SubmitWeight, p.submits) + Sum(CloserWeight, p.closers) + Sum(WorkerWeight, p.workers) + 2 * |p.chan|
  }

  lemma SubmitStepRank(p: Pool, step: Step)
    requires LocksOk(p) && Enabled(p, step)
    requires step.RLock? || step.Test? || step.SendBuffered? || step.GiveUp? || step.RUnlock? || step.Handoff?
    ensures Rank(Next(p, step)) < Rank(p)
  {
    hide Sum, NoReaders, NoWriters;
    match step {
      case Handoff(i, w) =>
        SumUpdate(SubmitWeight, p.submits, i, Unlocking(Accepted));
        SumUpdate(WorkerWeight, p.workers, w, Busy(i));
      case RLock(i) => SumUpdate(SubmitWeight, p.submits, i, Testing);
      case Test(i) => SumUpdate(SubmitWeight, p.submits, i, if p.closed then Unlocking(PoolClosed) else Sending);
      case SendBuffered(i) => SumUpdate(SubmitWeight, p.submits, i, Unlocking(Accepted));
      case GiveUp(i) => SumUpdate(SubmitWeight, p.submits, i, Unlocking(ShuttingDown));
      case RUnlock(i) => SumUpdate(SubmitWeight, p.submits, i, Returned(p.submits[i].o));
    }
  }

  lemma WorkerStepRank(p: Pool, step: Step)
    requires Enabled(p, step) && (step.Take? || step.Finish? || step.Quit?)
    ensures Rank(Next(p, step)) < Rank(p)
  {
    hide Sum;
    match step {
      case Take(w) => SumUpdate(WorkerWeight, p.workers, w, Busy(p.chan[0]));
      case Finish(w) => SumUpdate(WorkerWeight, p.workers, w, Idle);
      case Quit(w) => SumUpdate(WorkerWeight, p.workers, w, Exited);
    }
  }

  lemma CloserStepRank(p: Pool, step: Step)
    requires LocksOk(p) && Enabled(p, step)
    requires step.Announce? || step.Acquire? || step.CloseChan? || step.Drained? || step.CancelOwn?
    ensures Rank(Next(p, step)) < Rank(p)
  {
    hide Sum, NoReaders, NoWriters;
    match step {
      case Announce(c) => SumUpdate(CloserWeight, p.closers, c, Announced);
      case Acquire(c) => SumUpdate(CloserWeight, p.closers, c, Locked);
      case CloseChan(c) => SumUpdate(CloserWeight, p.closers, c, if p.closed then Done(false) else Draining);
      case Drained(c) => SumUpdate(CloserWeight, p.closers, c, Cancelling);
      case CancelOwn(c) => SumUpdate(CloserWeight, p.closers, c, Done(true));
    }
  }

  lemma StepDecreasesRank(p: Pool, step: Step)
    requires LocksOk(p) && Internal(step) && Enabled(p, step)
    ensures Rank(Next(p, step)) < Rank(p)
  {
    hide Enabled, Next, Rank, LocksOk;
    if step.Take? || step.Finish? || step.Quit? {
      WorkerStepRank(p, step);
    } else if step.Announce? || step.Acquire? || step.CloseChan? || step.Drained? || step.CancelOwn? {
      CloserStepRank(p, step);
    } else {
      SubmitStepRank(p, step);
    }
  }

  /** Every schedule of the calls already made is finite: no run of internal steps is longer than the rank. */
  lemma {:induction false} SchedulesEnd(p: Pool, steps: seq<Step>)
    requires Inv(p) && Runs(p, steps) && forall k :: 0 <= k < |steps| ==> Internal(steps[k])
    ensures |steps| + Rank(After(p, steps)) <= Rank(p)
    decreases |steps|
  {
    if steps != [] {
      StepDecreasesRank(p, steps[0]);
      StepConserves(p, steps[0]);
      StepKeepsLocks(p, steps[0]);
      StepKeepsExits(p, steps[0]);
      SchedulesEnd(Next(p, steps[0]), steps[1..]);
    }
  }

  /** When tasks do not submit, any schedule that runs as far as it can ends with every Submit and Close returned. */
  lemma EveryCallReturns(p: Pool, steps: seq<Step>)
    requires Inv(p) && Runs(p, steps)
    requires forall step :: Enabled(After(p, steps), step) ==> !Internal(step)
    ensures var q := After(p, steps);
            (forall i :: 0 <= i < |q.submits| ==> q.submits[i].Returned?) && (forall c :: 0 <= c < |q.closers| ==> q.closers[c].Done?)
  {
    RunKeeps(p, steps);
    var q := After(p, steps);
    if (exists i :: 0 <= i < |q.submits| && !q.submits[i].Returned?) || (exists c :: 0 <= c < |q.closers| && !q.closers[c].Done?) {
      var step := Progress(q);
    }
  }

  /** After Stop, Submit may still say nil to a task nobody will run: the select is free to pick the send. */
  lemma SubmitAfterStopCanBeLost(p: Pool, i: nat)
    requires Inv(p) && p.cancelled && !p.closed && AllExited(p)
    requires i < |p.submits| && p.submits[i] == Sending && |p.chan| < p.capacity
    ensures Enabled(p, SendBuffered(i)) && Enabled(p, GiveUp(i))
    ensures var q := Next(p, SendBuffered(i));
            AcceptedCount(q.submits, i) == 1 && Executions(q, i) == 0 && forall w :: !Enabled(q, Take(w))
  {
    assert InOnePlace(p, i);
  }

  // ------------------------------------------------ when a Close does not wait

  lemma Then(p: Pool, step: Step, rest: seq<Step>)
    requires Enabled(p, step) && Runs(Next(p, step), rest)
    ensures Runs(p, [step] + rest) && After(p, [step] + rest) == After(Next(p, step), rest)
  {
    hide Enabled, Next;
    assert ([step] + rest)[1..] == rest;
  }

  lemma {:induction false} Joined(p: Pool, a: seq<Step>, b: seq<Step>)
    requires Runs(p, a) && Runs(After(p, a), b)
    ensures Runs(p, a + b) && After(p, a + b) == After(After(p, a), b)
    decreases |a|
  {
    hide Enabled, Next;
    if a == [] {
      assert a + b == b;
    } else {
      Joined(Next(p, a[0]), a[1..], b);
      assert (a + b)[1..] == a[1..] + b;
    }
  }

  /** Somewhere in the run this Close took the write lock and found the channel closed already. */
  ghost predicate FoundClosed(p: Pool, steps: seq<Step>, c: nat)
    requires Runs(p, steps)
    decreases |steps|
  {
    steps != [] && ((steps[0] == CloseChan(c) && p.closed) || FoundClosed(Next(p, steps[0]), steps[1..], c))
  }

  lemma StepFoundClosed(p: Pool, step: Step, c: nat)
    requires LocksOk(p) && Enabled(p, step)
    ensures var q := Next(p, step);
            (c < |q.closers| && q.closers[c] == Done(false))
            <==> (c < |p.closers| && p.closers[c] == Done(false)) || (step == CloseChan(c) && p.closed)
  {}

  lemma {:induction false} RunFoundClosed(p: Pool, steps: seq<Step>, c: nat)
    requires LocksOk(p) && Runs(p, steps)
    ensures var q := After(p, steps);
            (c < |q.closers| && q.closers[c] == Done(false))
            <==> (c < |p.closers| && p.closers[c] == Done(false)) || FoundClosed(p, steps, c)
    decreases |steps|
  {
    if steps != [] {
      StepFoundClosed(p, steps[0], c);
      StepKeepsLocks(p, steps[0]);
      hide Enabled, Next, LocksOk;
      RunFoundClosed(Next(p, steps[0]), steps[1..], c);
    }
  }

  /** In every run, a Close has returned without draining if and only if it found the channel closed when it held the lock. */
  lemma EarlyReturnExactly(workers: int, queueSize: nat, steps: seq<Step>, c: nat)
    requires Runs(NewPool(workers, queueSize), steps)
    ensures var q := After(NewPool(workers, queueSize), steps);
            (c < |q.closers| && q.closers[c] == Done(false)) <==> FoundClosed(NewPool(workers, queueSize), steps, c)
  {
    RunFoundClosed(NewPool(workers, queueSize), steps, c);
  }

  lemma {:induction false} InHandExactly(workers: seq<Worker>, task: nat)
    ensures InHand(workers, task) > 0 <==> exists w :: 0 <= w < |workers| && workers[w] == Busy(task)
  {
    if workers != [] {
      InHandExactly(workers[1..], task);
      if workers[0] == Busy(task) {
      } else if w :| 0 <= w < |workers| && workers[w] == Busy(task) {
        assert workers[1..][w - 1] == Busy(task);
      }
    }
  }

  /** In every run, an accepted task has not run if and only if it is queued or in a worker's hands. */
  lemma UnfinishedExactly(workers: int, queueSize: nat, steps: seq<Step>, task: nat)
    requires Runs(NewPool(workers, queueSize), steps)
    ensures var q := After(NewPool(workers, queueSize), steps);
            Executions(q, task) < AcceptedCount(q.submits, task)
            <==> task in q.chan || exists w :: 0 <= w < |q.workers| && q.workers[w] == Busy(task)
  {
    NewPoolInv(workers, queueSize);
    RunKeeps(NewPool(workers, queueSize), steps);
    var q := After(NewPool(workers, queueSize), steps);
    assert InOnePlace(q, task);
    InHandExactly(q.workers, task);
  }

  /** A run from a new pool, of any size: task 0 is accepted and running when the second Close is back. */
  lemma SecondCloseOverRunningTask(workers: int, queueSize: nat) returns (steps: seq<Step>)
    ensures Runs(NewPool(workers, queueSize), steps)
    ensures var q := After(NewPool(workers, queueSize), steps);
            && |q.closers| == 2 && q.closers[1] == Done(false) && q.submits == [Returned(Accepted)]
            && AcceptedCount(q.submits, 0) == 1 && Executions(q, 0) == 0
  {
    var p := NewPool(workers, queueSize);
    var submit := [NewSubmit] + ([RLock(0)] + ([Test(0)] + ([Handoff(0, 0)] + ([RUnlock(0)] + []))));
    var q := p.(submits := [Returned(Accepted)], workers := p.workers[0 := Busy(0)]);
    SubmitRuns(p);
    var first := [NewClose] + ([Announce(0)] + ([Acquire(0)] + ([CloseChan(0)] + [])));
    CloseRuns(q);
    var r := q.(closed := true, chanClosed := true, closers := [Draining]);
    var second := [NewClose] + ([Announce(1)] + ([Acquire(1)] + ([CloseChan(1)] + [])));
    CloseAgainRuns(r);
    assert r.ran == [] && r.submits == [Returned(Accepted)];
    hide *;
    Joined(p, submit, first);
    Joined(p, submit + first, second);
    steps := submit + first + second;
    AcceptedUnrun(r.(closers := [Draining, Done(false)]));
  }

  lemma AcceptedUnrun(p: Pool)
    requires p.ran == [] && p.submits == [Returned(Accepted)]
    ensures Executions(p, 0) == 0 && AcceptedCount(p.submits, 0) == 1
  {}

  lemma SubmitRuns(p: Pool)
    requires p.submits == [] && p.closers == [] && p.chan == [] && !p.closed && !p.chanClosed && |p.workers| >= 1 && p.workers[0] == Idle
    ensures var steps := [NewSubmit] + ([RLock(0)] + ([Test(0)] + ([Handoff(0, 0)] + ([RUnlock(0)] + []))));
            Runs(p, steps) && After(p, steps) == p.(submits := [Returned(Accepted)], workers := p.workers[0 := Busy(0)])
  {
    var p1 := Next(p, NewSubmit);
    var p2 := Next(p1, RLock(0));
    var p3 := Next(p2, Test(0));
    var p4 := Next(p3, Handoff(0, 0));
    var p5 := Next(p4, RUnlock(0));
    assert p5 == p.(submits := [Returned(Accepted)], workers := p.workers[0 := Busy(0)]);
    Then(p4, RUnlock(0), []);
    Then(p3, Handoff(0, 0), [RUnlock(0)] + []);
    Then(p2, Test(0), [Handoff(0, 0)] + ([RUnlock(0)] + []));
    Then(p1, RLock(0), [Test(0)] + ([Handoff(0, 0)] + ([RUnlock(0)] + [])));
    Then(p, NewSubmit, [RLock(0)] + ([Test(0)] + ([Handoff(0, 0)] + ([RUnlock(0)] + []))));
  }

  lemma CloseRuns(p: Pool)
    requires p.closers == [] && NoReaders(p) && !p.closed && !p.chanClosed
    ensures var steps := [NewClose] + ([Announce(0)] + ([Acquire(0)] + ([CloseChan(0)] + [])));
            Runs(p, steps) && After(p, steps) == p.(closed := true, chanClosed := true, closers := [Draining])
  {
    var p1 := Next(p, NewClose);
    var p2 := Next(p1, Announce(0));
    var p3 := Next(p2, Acquire(0));
    var p4 := Next(p3, CloseChan(0));
    assert p4 == p.(closed := true, chanClosed := true, closers := [Draining]);
    Then(p3, CloseChan(0), []);
    Then(p2, Acquire(0), [CloseChan(0)] + []);
    Then(p1, Announce(0), [Acquire(0)] + ([CloseChan(0)] + []));
    Then(p, NewClose, [Announce(0)] + ([Acquire(0)] + ([CloseChan(0)] + [])));
  }

  lemma CloseAgainRuns(p: Pool)
    requires p.closers == [Draining] && NoReaders(p) && p.closed
    ensures var steps := [NewClose] + ([Announce(1)] + ([Acquire(1)] + ([CloseChan(1)] + [])));
            Runs(p, steps) && After(p, steps) == p.(closers := [Draining, Done(false)])
  {
    var p1 := Next(p, NewClose);
    var p2 := Next(p1, Announce(1));
    var p3 := Next(p2, Acquire(1));
    var p4 := Next(p3, CloseChan(1));
    assert p4 == p.(closers := [Draining, Done(false)]);
    Then(p3, CloseChan(1), []);
    Then(p2, Acquire(1), [CloseChan(1)] + []);
    Then(p1, Announce(1), [Acquire(1)] + ([CloseChan(1)] + []));
    Then(p, NewClose, [Announce(1)] + ([Acquire(1)] + ([CloseChan(1)] + [])));
  }

  // --------------------------------------------- when an accepted task never runs

  /**
    In a schedule that goes on as far as it can, an accepted task has not run if
    and only if it is still in the channel, every worker having left after a
    cancellation from outside.
   */
  lemma UnrunExactly(workers: int, queueSize: nat, steps: seq<Step>, task: nat)
    requires Runs(NewPool(workers, queueSize), steps)
    requires forall step :: Enabled(After(NewPool(workers, queueSize), steps), step) ==> !Internal(step)
    ensures var q := After(NewPool(workers, queueSize), steps);
            && (Executions(q, task) < AcceptedCount(q.submits, task) <==> task in q.chan)
            && (task in q.chan ==> AllExited(q) && q.outside)
  {
    UnfinishedExactly(workers, queueSize, steps, task);
    NewPoolInv(workers, queueSize);
    RunKeeps(NewPool(workers, queueSize), steps);
    var q := After(NewPool(workers, queueSize), steps);
    forall w | 0 <= w < |q.workers| ensures !q.workers[w].Busy? && (q.chan != [] ==> q.workers[w] == Exited) {
      assert !Enabled(q, Finish(w)) && !Enabled(q, Take(w));
    }
    assert q.chan != [] ==> q.workers[0] == Exited;
  }

  ghost function Quits(from: nat, n: nat): seq<Step>
    requires from <= n
    decreases n - from
  {
    if from == n then [] else [Quit(from)] + Quits(from + 1, n)
  }

  /** The first so many have left. */
  ghost function Gone(p: Pool, n: nat): Pool
    requires n <= |p.workers|
  {
    p.(workers := seq(|p.workers|, w requires 0 <= w < |p.workers| => if w < n then Exited else p.workers[w]))
  }

  lemma {:induction false} QuitsRun(p: Pool, from: nat)
    requires p.cancelled && from <= |p.workers| && forall w :: from <= w < |p.workers| ==> p.workers[w] == Idle
    ensures Runs(Gone(p, from), Quits(from, |p.workers|))
    ensures After(Gone(p, from), Quits(from, |p.workers|)) == Gone(p, |p.workers|)
    decreases |p.workers| - from
  {
    if from < |p.workers| {
      var q := Gone(p, from);
      assert Next(q, Quit(from)).workers == Gone(p, from + 1).workers;
      assert Next(q, Quit(from)) == Gone(p, from + 1);
      QuitsRun(p, from + 1);
      Then(q, Quit(from), Quits(from + 1, |p.workers|));
    }
  }

  /** A run from a new pool with any number of workers and room for one task: Stop, every worker leaves, and Submit says nil. */
  lemma AcceptedAfterStop(workers: int, queueSize: nat) returns (steps: seq<Step>)
    requires queueSize >= 1
    ensures Runs(NewPool(workers, queueSize), steps)
    ensures var q := After(NewPool(workers, queueSize), steps);
            && q.submits == [Returned(Accepted)] && q.chan == [0] && AllExited(q) && q.outside
            && AcceptedCount(q.submits, 0) == 1 && Executions(q, 0) == 0
            && forall step :: Enabled(q, step) ==> !Internal(step)
  {
    var p := NewPool(workers, queueSize);
    var n := |p.workers|;
    var c := Next(p, Cancel);
    assert Gone(c, 0).workers == c.workers;
    QuitsRun(c, 0);
    assert Gone(c, 0) == c;
    Then(p, Cancel, Quits(0, n));
    var g := Gone(c, n);
    var submit := [NewSubmit] + ([RLock(0)] + ([Test(0)] + ([SendBuffered(0)] + ([RUnlock(0)] + []))));
    LateSubmitRuns(g);
    Joined(p, [Cancel] + Quits(0, n), submit);
    steps := [Cancel] + Quits(0, n) + submit;
  }

  lemma LateSubmitRuns(p: Pool)
    requires p.submits == [] && p.closers == [] && p.chan == [] && !p.closed && !p.chanClosed && p.capacity >= 1
    ensures var steps := [NewSubmit] + ([RLock(0)] + ([Test(0)] + ([SendBuffered(0)] + ([RUnlock(0)] + []))));
            Runs(p, steps) && After(p, steps) == p.(submits := [Returned(Accepted)], chan := [0])
  {
    var p1 := Next(p, NewSubmit);
    var p2 := Next(p1, RLock(0));
    var p3 := Next(p2, Test(0));
    var p4 := Next(p3, SendBuffered(0));
    var p5 := Next(p4, RUnlock(0));
    assert p5 == p.(submits := [Returned(Accepted)], chan := [0]);
    Then(p4, RUnlock(0), []);
    Then(p3, SendBuffered(0), [RUnlock(0)] + []);
    Then(p2, Test(0), [SendBuffered(0)] + ([RUnlock(0)] + []));
    Then(p1, RLock(0), [Test(0)] + ([SendBuffered(0)] + ([RUnlock(0)] + [])));
    Then(p, NewSubmit, [RLock(0)] + ([Test(0)] + ([SendBuffered(0)] + ([RUnlock(0)] + []))));
  }
}
