/** One worker over the jobs table, among other clients: what a stopped worker leaves behind. */
module JobShutdown {
  import opened Common
  import W = JobWorker
  import J = Jobs

  /** The worker, the table, and the job behind each claim. */
  datatype World = World(w: W.State, q: J.State, ids: seq<J.JobId>)

  datatype Act =
    | Inner(step: W.Step)                                           // Start, Cancel, Drain, Stop, Return
    | Grab(queue: string, limit: int, visibility: int, locked: set<J.JobId>, picked: seq<J.JobId>)
    | Settle(ticket: nat, answered: bool, cause: string, backoff: int)
    | Beat(ticket: nat, extend: int)
    | Outside(op: J.Op)                                             // time, and whatever other clients do

  datatype Setting = Setting(worker: string, slots: nat, batch: nat)

  /** The job of that claim has had its settling call. */
  ghost predicate Called(w: W.State, t: nat) { W.Settlements(w.settled, t) >= 1 }

  /** The newest claim on its job. */
  ghost predicate Newest(ids: seq<J.JobId>, t: nat) {
    t < |ids| && forall u :: t < u < |ids| ==> ids[u] != ids[t]
  }

  /** The worker's newest claim on the job is not durably settled. */
  ghost predicate Busy(v: World, id: J.JobId) {
    exists t: nat :: Newest(v.ids, t) && v.ids[t] == id && !W.Landed(v.w.settled, t)
  }

  /** Other clients have names of their own and leave alone the jobs this worker is busy with; all others, settled ones too, are theirs to retry. */
  ghost predicate Allowed(x: Setting, v: World, op: J.Op) {
    match op
    case Dequeue(_, worker, _, _, _, picked) => worker != x.worker && forall id :: id in picked ==> !Busy(v, id)
    case Complete(id) => !Busy(v, id)
    case Fail(id, _, _) => !Busy(v, id)
    case Heartbeat(id, _, _) => !Busy(v, id)
    case _ => true
  }

  ghost function GrabOp(x: Setting, act: Act): J.Op
    requires act.Grab?
  {
    J.Dequeue(act.queue, x.worker, act.limit, act.visibility, act.locked, act.picked)
  }

  /** A job is not claimed again while this worker still works on it. */
  ghost predicate Possible(x: Setting, v: World, act: Act) {
    match act
    case Inner(step) =>
      (step.Start? || step.Cancel? || step.Drain? || step.Stop? || step.Return?) && W.Enabled(x.slots, x.batch, v.w, step)
    case Grab(_, _, _, _, picked) =>
      && W.Enabled(x.slots, x.batch, v.w, W.Claim(|picked|)) && J.Enabled(v.q, GrabOp(x, act))
      && forall t :: 0 <= t < |v.ids| && v.ids[t] in picked ==> Called(v.w, t)
    case Settle(ticket, answered, _, _) => ticket < |v.ids| && W.Enabled(x.slots, x.batch, v.w, W.Settle(ticket, answered))
    case Beat(ticket, _) => ticket < |v.ids| && !v.w.cancelled && ticket in v.w.flights && v.w.flights[ticket].InHandler?
    case Outside(op) => J.Enabled(v.q, op) && Allowed(x, v, op)
  }

  /** The statement a settling call sends. */
  ghost function SettleOp(v: World, ticket: nat, cause: string, backoff: int): J.Op
    requires ticket < |v.ids| && ticket in v.w.flights && v.w.flights[ticket].Settling?
  {
    if v.w.flights[ticket].ok then J.Complete(v.ids[ticket]) else J.Fail(v.ids[ticket], cause, backoff)
  }

  ghost function Do(x: Setting, v: World, act: Act): World
    requires Possible(x, v, act)
  {
    match act
    case Inner(step) => v.(w := W.Next(x.slots, x.batch, v.w, step))
    case Grab(_, _, _, _, picked) =>
      World(W.Next(x.slots, x.batch, v.w, W.Claim(|picked|)), J.Apply(v.q, GrabOp(x, act)), v.ids + picked)
    case Settle(ticket, answered, cause, backoff) =>
      v.(w := W.Next(x.slots, x.batch, v.w, W.Settle(ticket, answered)),
         q := if answered && !v.w.cancelled then J.Apply(v.q, SettleOp(v, ticket, cause, backoff)) else v.q)
    case Beat(ticket, extend) => v.(q := J.Apply(v.q, J.Heartbeat(v.ids[ticket], x.worker, extend)))
    case Outside(op) => v.(q := J.Apply(v.q, op))
  }

  ghost predicate Held(q: J.State, id: J.JobId, worker: string) { id in q.rows && J.HeldBy(q.rows[id], worker) }

  /** A claim holds its row, running under the worker's name, until its settling call lands, and no longer. */
  ghost predicate Holds(x: Setting, v: World, t: nat)
    requires t < |v.ids|
  {
    Held(v.q, v.ids[t], x.worker) <==> !W.Landed(v.w.settled, t)
  }

  ghost predicate Inv(x: Setting, v: World) {
    && W.Inv(x.slots, x.batch, v.w) && J.TableOk(v.q.rows) && |v.ids| == v.w.claimed
    && (forall t: nat :: t < |v.ids| && !Newest(v.ids, t) ==> Called(v.w, t))
    && (forall t: nat :: Newest(v.ids, t) ==> Holds(x, v, t))
  }

  // ---------------------------------------------------------------- one step

  lemma NotLandedYet(settled: seq<W.Settled>, t: nat)
    requires W.Settlements(settled, t) == 0
    ensures !W.Landed(settled, t)
    decreases |settled|
  {
    if settled != [] {
      var n := |settled| - 1;
      NotLandedYet(settled[..n], t);
      W.LandedSnoc(settled[..n], settled[n], t);
      assert settled[..n] + [settled[n]] == settled;
    }
  }

  lemma InnerKeeps(x: Setting, v: World, act: Act)
    requires Inv(x, v) && Possible(x, v, act) && act.Inner?
    ensures Inv(x, Do(x, v, act))
  {
    W.StepKeeps(x.slots, x.batch, v.w, act.step);
    hide W.Inv, J.TableOk, J.HeldBy, W.Landed;
    assert Do(x, v, act).w.settled == v.w.settled;
  }

  lemma OutsideKeeps(x: Setting, v: World, act: Act)
    requires Inv(x, v) && Possible(x, v, act) && act.Outside?
    ensures Inv(x, Do(x, v, act))
  {
    var u := Do(x, v, act);
    J.StepKeepsTable(v.q, act.op);
    hide W.Inv, J.TableOk, W.Landed;
    forall t: nat | Newest(u.ids, t) ensures Holds(x, u, t) {
      assert Holds(x, v, t);
      if W.Landed(v.w.settled, t) {
        NotSeized(x, v, act.op, v.ids[t]);
      } else {
        assert Busy(v, v.ids[t]);
        BusyStays(x, v, act.op, v.ids[t]);
      }
    }
  }

  /** The row of a busy job stays as it is. */
  lemma BusyStays(x: Setting, v: World, op: J.Op, id: J.JobId)
    requires Allowed(x, v, op) && Busy(v, id) && Held(v.q, id, x.worker)
    ensures var rows := J.Apply(v.q, op).rows; id in rows && rows[id] == v.q.rows[id]
  {}

  /** Nobody else takes a row in this worker's name. */
  lemma NotSeized(x: Setting, v: World, op: J.Op, id: J.JobId)
    requires Allowed(x, v, op) && !Held(v.q, id, x.worker)
    ensures !Held(J.Apply(v.q, op), id, x.worker)
  {}

  lemma BeatKeeps(x: Setting, v: World, act: Act)
    requires Inv(x, v) && Possible(x, v, act) && act.Beat?
    ensures Inv(x, Do(x, v, act))
  {
    var u := Do(x, v, act);
    J.StepKeepsTable(v.q, J.Heartbeat(v.ids[act.ticket], x.worker, act.extend));
    hide W.Inv, J.TableOk, W.Landed;
    forall t: nat | Newest(u.ids, t) ensures Holds(x, u, t) {
      assert Holds(x, v, t);
    }
  }

  lemma SettleKeeps(x: Setting, v: World, act: Act)
    requires Inv(x, v) && Possible(x, v, act) && act.Settle?
    ensures Inv(x, Do(x, v, act))
  {
    var u := Do(x, v, act);
    var landed := act.answered && !v.w.cancelled;
    var made := W.Settled(act.ticket, v.w.flights[act.ticket].ok, landed);
    W.StepKeeps(x.slots, x.batch, v.w, W.Settle(act.ticket, act.answered));
    J.StepKeepsTable(v.q, SettleOp(v, act.ticket, act.cause, act.backoff));
    assert W.Settlements(v.w.settled, act.ticket) == 0;
    NotLandedYet(v.w.settled, act.ticket);
    assert Newest(v.ids, act.ticket);
    hide W.Inv, J.TableOk, W.Landed;
    forall t: nat | t < |u.ids| && !Newest(u.ids, t) ensures Called(u.w, t) {
      W.SettlementsSnoc(v.w.settled, made, t);
    }
    forall t: nat | Newest(u.ids, t) ensures Holds(x, u, t) {
      assert Holds(x, v, t);
      W.LandedSnoc(v.w.settled, made, t);
      assert t != act.ticket ==> v.ids[t] != v.ids[act.ticket];
    }
  }

  lemma GrabKeeps(x: Setting, v: World, act: Act)
    requires Inv(x, v) && Possible(x, v, act) && act.Grab?
    ensures Inv(x, Do(x, v, act))
  {
    var u := Do(x, v, act);
    W.StepKeeps(x.slots, x.batch, v.w, W.Claim(|act.picked|));
    J.StepKeepsTable(v.q, GrabOp(x, act));
    assert forall t: nat :: t >= v.w.started ==> W.Settlements(v.w.settled, t) == 0;
    hide W.Inv, J.TableOk, W.Landed, J.Eligible;
    forall t: nat | t < |u.ids| && !Newest(u.ids, t) ensures Called(u.w, t) {
      if t < |v.ids| {
        if Newest(v.ids, t) {
          var k :| t < k < |u.ids| && u.ids[k] == u.ids[t];
          assert act.picked[k - |v.ids|] == v.ids[t];
        }
      }
    }
    forall t: nat | Newest(u.ids, t) ensures Holds(x, u, t) {
      if t < |v.ids| {
        forall k | t < k < |v.ids| ensures v.ids[k] != v.ids[t] {
          assert u.ids[k] == v.ids[k];
        }
        assert Newest(v.ids, t) && Holds(x, v, t);
        forall k | 0 <= k < |act.picked| ensures act.picked[k] != v.ids[t] {
          assert u.ids[|v.ids| + k] == act.picked[k];
        }
      } else {
        assert u.ids[t] == act.picked[t - |v.ids|] && u.ids[t] in act.picked;
        NotLandedYet(v.w.settled, t);
      }
    }
  }

  lemma StepKeeps(x: Setting, v: World, act: Act)
    requires Inv(x, v) && Possible(x, v, act)
    ensures Inv(x, Do(x, v, act))
  {
    match act {
      case Inner(_) => InnerKeeps(x, v, act);
      case Grab(_, _, _, _, _) => GrabKeeps(x, v, act);
      case Settle(_, _, _, _) => SettleKeeps(x, v, act);
      case Beat(_, _) => BeatKeeps(x, v, act);
      case Outside(_) => OutsideKeeps(x, v, act);
    }
  }

  // -------------------------------------------------------------- whole runs

  ghost predicate Behaves(x: Setting, v: World, acts: seq<Act>)
    decreases |acts|
  {
    acts == [] || (Possible(x, v, acts[0]) && Behaves(x, Do(x, v, acts[0]), acts[1..]))
  }

  ghost function After(x: Setting, v: World, acts: seq<Act>): World
    requires Behaves(x, v, acts)
    decreases |acts|
  {
    if acts == [] then v else After(x, Do(x, v, acts[0]), acts[1..])
  }

  lemma {:induction false} RunKeeps(x: Setting, v: World, acts: seq<Act>)
    requires Inv(x, v) && Behaves(x, v, acts)
    ensures Inv(x, After(x, v, acts))
    decreases |acts|
  {
    if acts != [] {
      StepKeeps(x, v, acts[0]);
      hide Inv, Possible, Do;
      RunKeeps(x, Do(x, v, acts[0]), acts[1..]);
    }
  }

  /** The worker's own part of a run. */
  function Steps(acts: seq<Act>): seq<W.Step> {
    if acts == [] then []
    else (match acts[0]
          case Inner(step) => [step]
          case Grab(_, _, _, _, picked) => [W.Claim(|picked|)]
          case Settle(ticket, answered, _, _) => [W.Settle(ticket, answered)]
          case _ => []) + Steps(acts[1..])
  }

  lemma {:induction false} WorkerRuns(x: Setting, v: World, acts: seq<Act>)
    requires Behaves(x, v, acts)
    ensures W.Runs(x.slots, x.batch, v.w, Steps(acts))
    ensures W.After(x.slots, x.batch, v.w, Steps(acts)) == After(x, v, acts).w
    decreases |acts|
  {
    if acts != [] {
      var u := Do(x, v, acts[0]);
      WorkerRuns(x, u, acts[1..]);
      match acts[0] {
        case Inner(step) => W.Prefixed(x.slots, x.batch, v.w, step, Steps(acts[1..]));
        case Grab(_, _, _, _, picked) => W.Prefixed(x.slots, x.batch, v.w, W.Claim(|picked|), Steps(acts[1..]));
        case Settle(ticket, answered, _, _) => W.Prefixed(x.slots, x.batch, v.w, W.Settle(ticket, answered), Steps(acts[1..]));
        case _ => assert [] + Steps(acts[1..]) == Steps(acts[1..]);
      }
    }
  }

  /**
    In every run, stopped or not, a worker's newest claim on a job still has the
    row running under its name if and only if its settling call was not made and
    answered before cancellation; jobs settled in time may go on to other workers.
   */
  lemma LeftRunningExactly(x: Setting, q: J.State, acts: seq<Act>, t: nat)
    requires J.TableOk(q.rows) && Behaves(x, World(W.START, q, []), acts)
    requires Newest(After(x, World(W.START, q, []), acts).ids, t)
    ensures var v := After(x, World(W.START, q, []), acts);
            Held(v.q, v.ids[t], x.worker) <==> !W.SettledInTime(Steps(acts), t)
  {
    var start := World(W.START, q, []);
    assert Inv(x, start);
    RunKeeps(x, start, acts);
    WorkerRuns(x, start, acts);
    hide Behaves, After, Inv;
    W.LandsExactly(x.slots, x.batch, Steps(acts), t);
    StillHolds(x, After(x, start, acts), t);
  }

  lemma StillHolds(x: Setting, v: World, t: nat)
    requires Inv(x, v) && Newest(v.ids, t)
    ensures Held(v.q, v.ids[t], x.worker) <==> !W.Landed(v.w.settled, t)
  {
    assert Holds(x, v, t);
  }

  /**
    A stopped worker made exactly one settling call for each claim; where that
    call was too late or unanswered, the row is left leased to the worker, and
    any later claim finds it eligible once the lease has run out.
   */
  lemma OrphansComeBack(x: Setting, q: J.State, acts: seq<Act>, t: nat, now: int)
    requires J.TableOk(q.rows) && Behaves(x, World(W.START, q, []), acts)
    requires var v := After(x, World(W.START, q, []), acts); v.w.phase.Stopped? && Newest(v.ids, t)
    requires !W.SettledInTime(Steps(acts), t)
    ensures var v := After(x, World(W.START, q, []), acts);
            && Called(v.w, t)
            && Held(v.q, v.ids[t], x.worker)
            && var j := v.q.rows[v.ids[t]];
               j.leasedUntil.Some? && (J.Eligible(j, j.queue, now) <==> j.leasedUntil.value < now)
  {
    var start := World(W.START, q, []);
    assert Inv(x, start);
    RunKeeps(x, start, acts);
    WorkerRuns(x, start, acts);
    LeftRunningExactly(x, q, acts, t);
    var v := After(x, start, acts);
    assert J.JobOk(v.q.rows[v.ids[t]]);
    W.OneSettlingCall(x.slots, x.batch, Steps(acts), t);
  }
}
