/** Running a deployment: reservation, container, health, traffic, draining, and the record kept of it. */
module Pipeline {
  import opened Common
  import D = DeploymentRecord
  import H = Health
  import opened PipelineTrace

  class Pipeline {
    var record: D.State
    var containers: seq<Container>
    var log: seq<Effect>
    var tick: nat

    constructor (record: D.State, containers: seq<Container>)
      ensures this.record == record && this.containers == containers && log == []
    {
      this.record, this.containers, log, tick := record, containers, [], 0;
    }

    /** A call that leaves the pipeline; others may act on the record before it is answered. */
    method Call(w: World, id: D.Id) returns (ok: bool, n: nat)
      modifies this`record, this`tick
      ensures n == old(tick) && record == D.Exec(old(record), w.others(n))
      ensures Calm(w, id) && D.Spent(old(record), id) ==> D.Spent(record, id)
      ensures Alone(w) ==> record == old(record)
      ensures Fair(w) ==> ok && record == old(record) && !w.cancelled(n)
    {
      n := tick;
      record := D.Exec(record, w.others(n));
      tick := tick + 1;
      ok := !w.fails(n);
      if Calm(w, id) && D.Spent(old(record), id) {
        D.StaysSpent(old(record), w.others(n), id);
      }
    }

    /** One operation on the deployment record. */
    method Write(w: World, job: Job, kind: D.Kind) returns (ok: bool)
      requires !kind.Create?
      modifies this`record, this`tick, this`log
      ensures log == old(log) + [Wrote(kind, ok)]
      ensures ok ==> job.id in record.rows && record.rows[job.id].status == D.NewStatus(kind)
      ensures Calm(w, job.id) && D.Spent(old(record), job.id) && !D.MakesReady(kind) ==> D.Spent(record, job.id)
      ensures Alone(w) && !ok ==> record == old(record)
      ensures Fair(w) && Owned(old(record), job) && D.Guard(kind, old(record).rows[job.id].status) ==>
                ok && Owned(record, job)
                && record.rows[job.id] == D.Changed(old(record).rows[job.id], D.Op(job.org, job.id, kind, w.clock(old(tick)), w.txStart(old(tick))))
    {
      var n: nat;
      ok, n := Call(w, job.id);
      if ok {
        var op := D.Op(job.org, job.id, kind, w.clock(n), w.txStart(n));
        ok := D.Accepts(record, op);
        record := D.Apply(record, op);
      }
      log := log + [Wrote(kind, ok)];
    }

    /** The execution's phase first, then the deployment's status. */
    method Transition(w: World, job: Job, to: D.Status, message: string) returns (ok: bool, ghost es: seq<Effect>)
      requires !D.MakesReady(D.UpdateStatus(to, message, ""))
      modifies this`record, this`tick, this`log
      ensures log == old(log) + es && Quiet(es)
      ensures ok ==> es == Steps(to, message)
      ensures Unremarkable(es)
      ensures Fair(w) && Owned(old(record), job) ==> ok && SameImage(old(record), record, job)
      ensures !ok ==> forall e :: e in es ==> !e.Wrote? || !e.ok
      ensures ok ==> job.id in record.rows && record.rows[job.id].status == to
      ensures Calm(w, job.id) && (ok || D.Spent(old(record), job.id)) ==> D.Spent(record, job.id)
      ensures Alone(w) && !ok ==> record == old(record)
    {
      var n: nat;
      ok, n := Call(w, job.id);
      log := log + [Phase(ok)];
      es := [Phase(ok)];
      if ok {
        ok := Write(w, job, D.UpdateStatus(to, message, ""));
        es := es + [Wrote(D.UpdateStatus(to, message, ""), ok)];
      }
    }

    /** Marks the deployment failed, as far as the record lets it. */
    method Fail(w: World, job: Job, reason: string, start: int) returns (ghost es: seq<Effect>)
      modifies this`record, this`tick, this`log
      ensures log == old(log) + es && Quiet(es)
      ensures es != [] && es[0].Wrote? && es[0].kind.DeployFailed? && forall e :: e in es[1..] ==> !e.Wrote?
      ensures Calm(w, job.id) && (es[0].ok || D.Spent(old(record), job.id)) ==> D.Spent(record, job.id)
      ensures MarksFailed(es) && FailedFor(es, reason) && Explained(es, w.container) && forall e :: e in es ==> e.Wrote? || e.Phase?
    {
      var kind := D.DeployFailed(reason, w.clock(tick) - start);
      var ok := Write(w, job, kind);
      es := [Wrote(kind, ok)];
      var n: nat;
      ok, n := Call(w, job.id);
      ok, n := Call(w, job.id);
      log := log + [Phase(ok)];
      es := es + [Phase(ok)];
      assert es[0] in es;
    }

    /** A transition whose failure fails the deployment. */
    method Advance(w: World, job: Job, to: D.Status, message: string, start: int) returns (r: Result<()>, ghost es: seq<Effect>)
      requires !D.MakesReady(D.UpdateStatus(to, message, ""))
      modifies this`record, this`tick, this`log
      ensures log == old(log) + es && Quiet(es)
      ensures Calm(w, job.id) && (D.Spent(old(record), job.id) || r.Ok? || Changed(es)) ==> D.Spent(record, job.id)
      ensures r.Err? ==> r.code == FailedPrecond && FailedFor(es, message)
      ensures (r.Err? <==> MarksFailed(es)) && Explained(es, w.container)
      ensures r.Ok? ==> es == Steps(to, message)
      ensures Fair(w) && Owned(old(record), job) && to != D.Cancelled && to != D.Failed ==> r.Ok? && Proceeds(old(record), record, job)
    {
      hide Calm, D.Spent, D.Exec, Alone, Fair, MarksFailed, FailedFor, Explained, Quiet, Unremarkable;
      var ok: bool;
      ok, es := Transition(w, job, to, message);
      UnremarkableIs(es, w.container);
      r := Ok(());
      if !ok {
        ghost var first := es;
        ghost var more := Fail(w, job, message, start);
        QuietCat(first, more);
        FailureCat(first, more, w.container);
        FailedForCat(first, more);
        es := first + more;
        r := Err(FailedPrecond);
      }
    }

    method CheckCancel(w: World, job: Job) returns (r: Result<()>)
      modifies this`record, this`tick
      ensures Calm(w, job.id) && D.Spent(old(record), job.id) ==> D.Spent(record, job.id)
      ensures r.Err? ==> r.code != FailedPrecond
      ensures CancelledThroughout(w) ==> r.Err?
      ensures r.Ok? ==> Owned(record, job) && record.rows[job.id].status != D.Cancelled
      ensures Fair(w) && Going(old(record), job) ==> r.Ok? && record == old(record)
    {
      var ok, n := Call(w, job.id);
      if !ok {
        return Err(Internal);
      }
      if job.id !in record.rows || record.rows[job.id].org != job.org {
        return Err(NotFound);
      }
      if record.rows[job.id].status == D.Cancelled || w.cancelled(n) {
        ok, n := Call(w, job.id);
        return Err(Canceled);
      }
      r := Ok(());
    }

    /** An outside call whose failure fails the deployment. */
    method CallOrFail(w: World, job: Job, pull: bool, reason: string, start: int) returns (r: Result<()>, ghost es: seq<Effect>)
      requires reason == if pull then "image pull failed" else "configuration load failed"
      modifies this`record, this`tick, this`log
      ensures log == old(log) + es && Quiet(es)
      ensures Calm(w, job.id) && D.Spent(old(record), job.id) ==> D.Spent(record, job.id)
      ensures (r == Err(FailedPrecond) <==> MarksFailed(es)) && Explained(es, w.container)
      ensures r.Ok? ==> es == [if pull then Pull(true) else LoadConfig(true)]
      ensures Fair(w) ==> r.Ok? && record == old(record)
    {
      hide *;
      var ok, n := Call(w, job.id);
      var e := if pull then Pull(ok) else LoadConfig(ok);
      log := log + [e];
      es := [e];
      r := Ok(());
      OutsideUnmarked(e, w.container);
      if !ok {
        ghost var more := Fail(w, job, reason, start);
        OutsideExplained(e, more, reason, w.container);
        QuietCat(es, more);
        es := es + more;
        r := Err(FailedPrecond);
      }
    }

    /** From the reservation to the pulled image. */
    method FetchImage(w: World, job: Job, start: int) returns (r: Result<()>, ghost es: seq<Effect>)
      modifies this`record, this`tick, this`log
      ensures log == old(log) + es && Quiet(es)
      ensures Calm(w, job.id) && D.Spent(old(record), job.id) ==> D.Spent(record, job.id)
      ensures (r == Err(FailedPrecond) <==> MarksFailed(es)) && Explained(es, w.container)
      ensures CancelledThroughout(w) ==> r.Err?
      ensures r.Ok? ==> es == Fetching()
      ensures Fair(w) && Going(old(record), job) ==> r.Ok? && Proceeds(old(record), record, job)
    {
      hide Calm, D.Spent, D.Exec, Alone, D.NewStatus, Quiet, Fair, CancelledThroughout, MarksFailed, Explained, FailedFor, Steps;
      es := [];
      UnremarkableIs(es, w.container);
      NothingIsQuiet();
      r := CheckCancel(w, job);
      if r.Err? { return; }
      ghost var more: seq<Effect>;
      r, more := Advance(w, job, D.Scheduling, "resources reserved", start);
      es := more;
      if r.Err? { return; }
      r, more := Advance(w, job, D.Deploying, "pulling image", start);
      QuietCat(es, more);
      FailureCat(es, more, w.container);
      es := es + more;
      if r.Err? { return; }
      r, more := CallOrFail(w, job, true, "image pull failed", start);
      QuietCat(es, more);
      FailureCat(es, more, w.container);
      es := es + more;
    }

    /** On to the point where a container is created. */
    method Prepare(w: World, job: Job, start: int) returns (r: Result<()>, ghost es: seq<Effect>)
      modifies this`record, this`tick, this`log
      ensures log == old(log) + es && Quiet(es)
      ensures Calm(w, job.id) && D.Spent(old(record), job.id) ==> D.Spent(record, job.id)
      ensures (r == Err(FailedPrecond) <==> MarksFailed(es)) && Explained(es, w.container)
      ensures CancelledThroughout(w) ==> r.Err?
      ensures r.Ok? ==> es == Preparing()
      ensures Fair(w) && Going(old(record), job) ==> r.Ok? && Proceeds(old(record), record, job)
    {
      hide Calm, D.Spent, D.Exec, Alone, D.NewStatus, Quiet, Fair, CancelledThroughout, MarksFailed, Explained, FailedFor, Steps, Fetching;
      r, es := FetchImage(w, job, start);
      if r.Err? { return; }
      ghost var more: seq<Effect>;
      r, more := Advance(w, job, D.Deploying, "preparing runtime", start);
      QuietCat(es, more);
      FailureCat(es, more, w.container);
      es := es + more;
      if r.Err? { return; }
      r, more := CallOrFail(w, job, false, "configuration load failed", start);
      QuietCat(es, more);
      FailureCat(es, more, w.container);
      es := es + more;
      if r.Err? { return; }
      r, more := Advance(w, job, D.Deploying, "creating container", start);
      QuietCat(es, more);
      FailureCat(es, more, w.container);
      es := es + more;
    }

    /** The rolling strategy, which the others wrap: create, start, and undo the creation when the start fails. */
    method CreateAndStart(w: World, job: Job) returns (ok: bool, ghost es: seq<Effect>)
      modifies this`record, this`tick, this`log
      ensures log == old(log) + es && OwnLaunch(es, w.container)
      ensures Calm(w, job.id) && D.Spent(old(record), job.id) ==> D.Spent(record, job.id)
      ensures ok ==> es == [CreateContainer(w.container, true), StartContainer(w.container, true)]
      ensures !ok ==> CreateContainer(w.container, false) in es || StartContainer(w.container, false) in es
      ensures Fair(w) ==> ok && record == old(record)
    {
      hide Calm, D.Spent, D.Exec, Alone, Fair;
      var n: nat;
      ok, n := Call(w, job.id);
      es := [CreateContainer(w.container, ok)];
      log := log + [CreateContainer(w.container, ok)];
      if !ok { return; }
      ok, n := Call(w, job.id);
      es := es + [StartContainer(w.container, ok)];
      log := log + [StartContainer(w.container, ok)];
      if ok { return; }
      var removed: bool;
      removed, n := Call(w, job.id);
      es := es + [RemoveContainer(w.container, removed)];
      log := log + [RemoveContainer(w.container, removed)];
    }

    method Launch(w: World, job: Job, start: int) returns (r: Result<()>, ghost es: seq<Effect>)
      modifies this`record, this`tick, this`log, this`containers
      ensures log == old(log) + es && OwnOnly(es, w.container) && Creations(es) == 1
      ensures Calm(w, job.id) && D.Spent(old(record), job.id) ==> D.Spent(record, job.id)
      ensures (r == Err(FailedPrecond) <==> MarksFailed(es)) && Explained(es, w.container)
      ensures r.Ok? ==> exists recorded :: es == Launching(w.container, recorded)
      ensures Fair(w) ==> r.Ok? && record == old(record) && es == Launching(w.container, true)
                          && containers == old(containers) + [Container(w.container, job.id, job.project, true, false)]
    {
      hide Calm, D.Spent, D.Exec, Alone, Fair, MarksFailed, FailedFor, Explained, Quiet, OwnLaunch, OwnOnly, Creations;
      var ok: bool;
      ok, es := CreateAndStart(w, job);
      OwnLaunchIs(es, w.container);
      LaunchUnmarked(es, w.container);
      ghost var more: seq<Effect>;
      if ok {
        var n: nat;
        ok, n := Call(w, job.id);
        if ok {
          containers := containers + [Container(w.container, job.id, job.project, true, false)];
        }
        log := log + [Recorded(w.container, ok)];
        more := [Recorded(w.container, ok)];
        RecordedIs(w.container, ok);
        assert es + more == Launching(w.container, ok);
        FailureCat(es, more, w.container);
        r := Ok(());
      } else {
        more := Fail(w, job, "container creation failed", start);
        LaunchExplained(es, more, w.container);
        r := Err(FailedPrecond);
      }
      LaunchThen(es, more, w.container);
      es := es + more;
    }

    method CheckHealth(w: World) returns (e: Effect)
      ensures e.Checked? && (e.outcome.Healthy? ==> Healthy(e, w))
      ensures Smooth(w) ==> e.outcome.Healthy?
    {
      var results, outcome := H.Poll(H.Defaults(w.health), w.probes);
      if outcome.Healthy? {
        H.HealthyEnds(H.Defaults(w.health), w.probes, |results|);
      }
      if n: nat :| H.Ends(H.Defaults(w.health), w.probes, n, H.Healthy) {
        H.EndsOnce(H.Defaults(w.health), w.probes, |results|, outcome, n, H.Healthy);
      }
      e := Checked(results, outcome);
    }

    method AwaitHealth(w: World, job: Job, start: int) returns (r: Result<()>, ghost es: seq<Effect>)
      modifies this`record, this`tick, this`log
      ensures log == old(log) + es && Quiet(es)
      ensures r.Ok? ==> HealthyBefore(es, |es|, w) && Waiting(es, w)
      ensures Calm(w, job.id) && D.Spent(old(record), job.id) ==> D.Spent(record, job.id)
      ensures (r == Err(FailedPrecond) <==> MarksFailed(es)) && Explained(es, w.container)
      ensures Smooth(w) && Going(old(record), job) ==> r.Ok? && Proceeds(old(record), record, job)
    {
      hide Calm, D.Spent, D.Exec, Alone, Healthy, Fair, MarksFailed, FailedFor, Explained, D.NewStatus;
      r, es := Advance(w, job, D.Deploying, "waiting for health", start);
      if r.Err? { return; }
      var e := CheckHealth(w);
      log := log + [e];
      ghost var checked := [e];
      if !e.outcome.Healthy? {
        var ok, n := Call(w, job.id);
        ghost var more := Fail(w, job, "health check failed", start);
        UnhealthyExplained(e, more, w.container);
        checked := [e] + more;
        r := Err(FailedPrecond);
      } else {
        HealthyUnmarked(e, w.container);
      }
      FailureCat(es, checked, w.container);
      es := es + checked;
      assert es[2] == e && es[..2] == Steps(D.Deploying, "waiting for health");
    }

    /** Stops and removes each container, reporting those whose removal succeeded. */
    method DrainContainers(w: World, job: Job, ids: seq<string>) returns (drained: seq<string>, ghost es: seq<Effect>)
      modifies this`record, this`tick, this`log
      ensures log == old(log) + es && OnlyDrives(es)
      ensures forall id :: id in drained ==> id in ids
      ensures forall id :: id in ids ==> id in drained || RemoveContainer(id, false) in es
      ensures Calm(w, job.id) && D.Spent(old(record), job.id) ==> D.Spent(record, job.id)
      ensures Fair(w) ==> drained == ids && es == Drive(ids) && record == old(record)
    {
      hide Calm, D.Spent, D.Exec, Alone, Fair;
      drained, es := [], [];
      for i := 0 to |ids|
        invariant log == old(log) + es && OnlyDrives(es)
        invariant forall id :: id in drained ==> id in ids
        invariant forall id :: id in ids[..i] ==> id in drained || RemoveContainer(id, false) in es
        invariant Calm(w, job.id) && D.Spent(old(record), job.id) ==> D.Spent(record, job.id)
        invariant Fair(w) ==> drained == ids[..i] && es == Drive(ids[..i]) && record == old(record)
      {
        var id := ids[i];
        assert ids[..i + 1] == ids[..i] + [id] && ids[..i + 1][..i] == ids[..i];
        var ok, n := Call(w, job.id);
        ok, n := Call(w, job.id);
        log := log + [StopContainer(id), RemoveContainer(id, ok)];
        es := es + [StopContainer(id), RemoveContainer(id, ok)];
        if ok {
          drained := drained + [id];
        }
      }
      assert ids[..|ids|] == ids;
    }

    method MarkRemoved(w: World, job: Job, ids: seq<string>) returns (ghost es: seq<Effect>)
      modifies this`record, this`tick, this`log, this`containers
      ensures log == old(log) + es && Quiet(es) && forall e :: e in es ==> e.MarkedRemoved?
      ensures forall c :: c in containers && !c.removed ==>
                c in old(containers) && (c.id in ids ==> MarkedRemoved(c.id, false) in es)
      ensures Calm(w, job.id) && D.Spent(old(record), job.id) ==> D.Spent(record, job.id)
      ensures Fair(w) ==> es == Marks(ids) && record == old(record) && MarkedExactly(old(containers), containers, set id | id in ids)
    {
      hide Calm, D.Spent, D.Exec, Alone, Fair;
      es := [];
      for i := 0 to |ids|
        invariant log == old(log) + es && Quiet(es) && forall e :: e in es ==> e.MarkedRemoved?
        invariant forall c :: c in containers && !c.removed ==>
                    c in old(containers) && (c.id in ids[..i] ==> MarkedRemoved(c.id, false) in es)
        invariant Calm(w, job.id) && D.Spent(old(record), job.id) ==> D.Spent(record, job.id)
        invariant Fair(w) ==>
                    es == Marks(ids[..i]) && record == old(record) && MarkedExactly(old(containers), containers, set id | id in ids[..i])
      {
        assert ids[..i + 1] == ids[..i] + [ids[i]] && ids[..i + 1][..i] == ids[..i];
        var ok, n := Call(w, job.id);
        ghost var before := containers;
        if ok {
          containers := MarkAll(containers, ids[i]);
          Unmarked(before, ids[i]);
        }
        log := log + [MarkedRemoved(ids[i], ok)];
        es := es + [MarkedRemoved(ids[i], ok)];
      }
      assert ids[..|ids|] == ids;
    }

    /** Containers of the project that belong to other deployments. */
    method Superseded(w: World, job: Job, listed: seq<Container>) returns (ids: seq<string>)
      ensures forall c :: c in listed && c.id != w.container && c.deployment != job.id ==> c.id in ids
      ensures forall id :: id in ids ==> exists c :: c in listed && c.id == id && c.id != w.container && c.deployment != job.id
    {
      ids := [];
      for i := 0 to |listed|
        invariant forall c :: c in listed[..i] && c.id != w.container && c.deployment != job.id ==> c.id in ids
        invariant forall id :: id in ids ==> exists c :: c in listed && c.id == id && c.id != w.container && c.deployment != job.id
      {
        var c := listed[i];
        assert listed[..i + 1] == listed[..i] + [c];
        if c.id != w.container && c.deployment != job.id {
          ids := ids + [c.id];
        }
      }
      assert listed[..|listed|] == listed;
    }

    method SwitchAndDrain(w: World, job: Job, start: int) returns (r: Result<()>, ghost es: seq<Effect>)
      modifies this`record, this`tick, this`log, this`containers
      ensures log == old(log) + es && NoCreation(es)
      ensures r.Ok? && Listed(true) in es ==> Drained(containers, job, w.container, es)
      ensures r.Ok? ==> Switched(es)
      ensures (r == Err(FailedPrecond) <==> MarksFailed(es)) && Explained(es, w.container)
      ensures Fair(w) && Going(old(record), job) ==>
                r.Ok? && Proceeds(old(record), record, job) && DrainedWith(es, job, w.container, old(containers), containers)
      ensures Calm(w, job.id) && D.Spent(old(record), job.id) ==> D.Spent(record, job.id)
    {
      hide Calm, D.Spent, D.Exec, Alone, Drained, Fair, MarksFailed, FailedFor, Explained, Quiet, D.NewStatus, Steps, DrivenWith;
      ghost var more: seq<Effect>;
      r, es := Advance(w, job, D.Deploying, "switching traffic", start);
      QuietNoCreation(es);
      if r.Err? { return; }
      r, more := Advance(w, job, D.Deploying, "cleanup", start);
      QuietNoCreation(more);
      FailureCat(es, more, w.container);
      es := es + more;
      if r.Err? { return; }
      more := ListAndDrain(w, job);
      DrainedLater(containers, job, w.container, es, more);
      FailureCat(es, more, w.container);
      SwitchedIs(more);
      es := es + more;
    }

    method ListAndDrain(w: World, job: Job) returns (ghost es: seq<Effect>)
      modifies this`record, this`tick, this`log, this`containers
      ensures log == old(log) + es && NoCreation(es)
      ensures Listed(true) in es ==> Drained(containers, job, w.container, es)
      ensures es != [] && es[0].Listed? && !MarksFailed(es) && Explained(es, w.container)
      ensures Fair(w) ==> record == old(record) && DrivenWith(es, job, w.container, old(containers), containers)
      ensures Calm(w, job.id) && D.Spent(old(record), job.id) ==> D.Spent(record, job.id)
    {
      hide *;
      var ok, n := Call(w, job.id);
      log := log + [Listed(ok)];
      var listed: seq<Container> := if ok then ActiveOf(containers, job.project) else [];
      var ids := Superseded(w, job, listed);
      ghost var driven: seq<Effect>, marks: seq<Effect> := [], [];
      var drained: seq<string> := [];
      NothingDriven(containers);
      if |ids| > 0 {
        drained, driven := DrainContainers(w, job, ids);
        marks := MarkRemoved(w, job, drained);
      }
      es := [Listed(ok)] + driven + marks;
      DrainUnmarked(ok, driven, marks, w.container);
      if ok {
        DrainedIs(old(containers), containers, job, w.container, ids, drained, driven, marks);
      }
      if Fair(w) {
        DrivenIs(old(containers), containers, job, w.container, ids);
      }
    }

    /** The closing write. */
    method Close(w: World, job: Job, imageRef: string, metadata: map<string, string>, start: int) returns (ok: bool, ghost e: Effect)
      modifies this`record, this`tick, this`log
      ensures log == old(log) + [e] && Quiet([e]) && Unremarkable([e]) && (ok ==> Closed([e], job))
      ensures e.Wrote? && (!job.rollback ==> e.kind == D.DeployComplete(D.Deployed(imageRef, w.clock(old(tick)) - start, metadata)))
      ensures Calm(w, job.id) && D.Spent(old(record), job.id) ==> D.Spent(record, job.id)
      ensures ok ==> job.id in record.rows && record.rows[job.id].status == if job.rollback then D.RolledBack else D.Live
      ensures Fair(w) && Deploys(old(record), job, imageRef) ==> ok && SameImage(old(record), record, job) && Owned(record, job)
    {
      hide Calm, D.Spent, D.Exec, Alone, D.Changed, Fair;
      ghost var now, tx := w.clock(tick), w.txStart(tick);
      var kind := if job.rollback then D.MarkRolledBack(w.clock(tick) - start)
                  else D.DeployComplete(D.Deployed(imageRef, w.clock(tick) - start, metadata));
      ok := Write(w, job, kind);
      e := Wrote(kind, ok);
      if Owned(old(record), job) {
        ClosingKeepsImage(old(record).rows[job.id], D.Op(job.org, job.id, kind, now, tx));
      }
    }

    /** The closing write decides; what follows it is best effort. */
    method Finish(w: World, job: Job, imageRef: string, metadata: map<string, string>, start: int) returns (r: Result<()>, ghost es: seq<Effect>)
      modifies this`record, this`tick, this`log
      ensures log == old(log) + es && Quiet(es)
      ensures Calm(w, job.id) && D.Spent(old(record), job.id) ==> D.Spent(record, job.id)
      ensures es != [] && (Alone(w) && r.Ok? ==> EndsAs(record, job, SaysLive(es)))
      ensures es[0].Wrote? && (!job.rollback ==> es[0].kind == D.DeployComplete(D.Deployed(imageRef, w.clock(old(tick)) - start, metadata)))
      ensures !MarksFailed(es) && Explained(es, w.container) && r != Err(FailedPrecond) && (r.Ok? ==> Closed(es, job))
      ensures Fair(w) && Deploys(old(record), job, imageRef) ==>
                r.Ok? && Closing(es, job) && SameImage(old(record), record, job) && record.rows[job.id].status == D.Live
    {
      hide Calm, D.Spent, D.Exec, Alone, MarksFailed, Explained, Fair, Deploys, SameImage, Owned, Quiet;
      var ok: bool;
      ghost var e: Effect;
      ok, e := Close(w, job, imageRef, metadata, start);
      es := [e];
      UnremarkableIs(es, w.container);
      if !ok {
        return Err(Internal), es;
      }
      ghost var closed := record;
      var done, n := Call(w, job.id);
      ghost var more: seq<Effect>;
      done, more := Transition(w, job, D.Live, "deployment complete");
      UnremarkableIs(more, w.container);
      FailureCat(es, more, w.container);
      QuietCat(es, more);
      SameImageTrans(old(record), closed, record, job);
      es := es + more;
      r := Ok(());
    }

    /** Everything between the reservation and its release. */
    method RunReserved(w: World, job: Job, imageRef: string, metadata: map<string, string>, start: int)
      returns (r: Result<()>, ghost es: seq<Effect>)
      modifies this`record, this`tick, this`log, this`containers
      ensures log == old(log) + es && Unreserving(es) && Guarded(es, w) && Creations(es) <= 1 && (r.Ok? ==> es != [])
      ensures r.Ok? && Listed(true) in es ==> Drained(containers, job, w.container, es)
      ensures Alone(w) && r.Ok? ==> EndsAs(record, job, SaysLive(es))
      ensures Calm(w, job.id) && D.Spent(old(record), job.id) ==> D.Spent(record, job.id)
      ensures r.Ok? ==> Succeeded(es, w, job)
      ensures (r == Err(FailedPrecond) <==> MarksFailed(es)) && Explained(es, w.container)
      ensures CancelledThroughout(w) ==> r.Err? && Creations(es) == 0
      ensures Smooth(w) && Deploys(old(record), job, imageRef) ==>
                r.Ok? && Replaced(es, w, job, old(containers), containers)
                && SameImage(old(record), record, job) && record.rows[job.id].status == D.Live
    {
      hide *;
      ghost var launch: seq<Effect>, check: seq<Effect>, drain: seq<Effect>, finish: seq<Effect>;
      SmoothIsFair(w);
      DeploysIsGoing(old(record), job, imageRef);
      r, es := Prepare(w, job, start);
      QuietPart(es, w);
      ProceedsTrans(old(record), old(record), record, job, imageRef);
      if r.Err? { return; }
      r, launch := Launch(w, job, start);
      LaunchPart(es, launch, w);
      FailureCat(es, launch, w.container);
      es := es + launch;
      if r.Err? { return; }
      ghost var launched, standing := record, containers;
      r, check := AwaitHealth(w, job, start);
      CheckPart(es, check, w);
      FailureCat(es, check, w.container);
      es := es + check;
      ProceedsTrans(old(record), launched, record, job, imageRef);
      if r.Err? { return; }
      ghost var checked := record;
      r, drain := SwitchAndDrain(w, job, start);
      DrainPart(es, drain, w, containers, job);
      FailureCat(es, drain, w.container);
      es := es + drain;
      ProceedsTrans(old(record), checked, record, job, imageRef);
      if r.Err? { return; }
      ghost var drained := record;
      r, finish := Finish(w, job, imageRef, metadata, start);
      FinishPart(es, finish, w, containers, job);
      FailureCat(es, finish, w.container);
      es := es + finish;
      SameImageTrans(old(record), drained, record, job);
      if r.Ok? {
        SucceededIs(launch, check, drain, finish, w, job);
      }
      if Smooth(w) && Deploys(old(record), job, imageRef) {
        ReplacedIs(launch, check, drain, finish, w, job, old(containers), containers);
      }
    }

    /** Every check made before anything is done; the image to deploy if all pass. */
    method Admit(w: World, job: Job) returns (r: Result<string>)
      modifies this`record, this`tick
      ensures job.id == "" ==> r == Err(InvalidArgument)
      ensures Calm(w, job.id) && D.Spent(old(record), job.id) ==> D.Spent(record, job.id)
      ensures Calm(w, job.id) && D.Spent(old(record), job.id) && !job.rollback ==> r.Err?
      ensures Alone(w) && r.Ok? ==>
                record == old(record) && job.id in record.rows && record.rows[job.id].org == job.org
                && (job.rollback || D.Ready(record.rows[job.id]))
      ensures Fair(w) && Startable(old(record), job) ==>
                record == old(record)
                && r == Ok(if record.rows[job.id].imageTag != "" then record.rows[job.id].imageTag else w.artifactTag)
      ensures Fair(w) && job.id != "" && Owned(old(record), job) && old(record).rows[job.id].status == D.Cancelled ==> r == Err(Canceled)
    {
      if job.id == "" {
        return Err(InvalidArgument);
      }
      var ok, n := Call(w, job.id);
      if !ok { return Err(Internal); }
      if job.id !in record.rows || record.rows[job.id].org != job.org { return Err(NotFound); }
      var imageTag := record.rows[job.id].imageTag;
      ok, n := Call(w, job.id);
      if ok && job.id in record.rows && record.rows[job.id].org == job.org && record.rows[job.id].status == D.Cancelled {
        return Err(Canceled);
      }
      ok, n := Call(w, job.id);
      if !ok { return Err(Internal); }
      if job.id !in record.rows || record.rows[job.id].org != job.org { return Err(NotFound); }
      if !D.Ready(record.rows[job.id]) && !job.rollback {
        return Err(FailedPrecond);
      }
      ok, n := Call(w, job.id);
      if !ok { return Err(Internal); }
      ok, n := Call(w, job.id);
      if !ok && imageTag == "" { return Err(FailedPrecond); }
      var artifact := if ok then w.artifactTag else "";
      ok, n := Call(w, job.id);
      if !ok { return Err(Internal); }
      r := Ok(if imageTag != "" then imageTag else artifact);
    }

    /** Reserves, runs, releases. */
    method ReserveAndRun(w: World, job: Job, imageRef: string, metadata: map<string, string>, start: int, ghost before: seq<Effect>)
      returns (r: Result<()>, ghost es: seq<Effect>, ghost held: seq<Effect>)
      requires Quiet(before)
      modifies this`record, this`tick, this`log, this`containers
      ensures log == old(log) + es
      ensures Guarded(before + es, w) && Balanced(before + es) && Creations(before + es) <= 1
      ensures r.Ok? && Listed(true) in before + es ==> Drained(containers, job, w.container, before + es)
      ensures Alone(w) && r.Ok? ==> es != [] && EndsAs(record, job, SaysLive((before + es)[..|before + es| - 1]))
      ensures Calm(w, job.id) && D.Spent(old(record), job.id) ==> D.Spent(record, job.id)
      ensures r.Ok? ==> es == [Reserve(true)] + held + [Release] && Succeeded(held, w, job)
      ensures (r == Err(FailedPrecond) <==> MarksFailed(es)) && Explained(es, w.container)
      ensures CancelledThroughout(w) ==> r.Err? && Creations(before + es) == 0
      ensures Smooth(w) && Deploys(old(record), job, imageRef) ==>
                r.Ok? && Replaced(held, w, job, old(containers), containers)
                && SameImage(old(record), record, job) && record.rows[job.id].status == D.Live
    {
      hide *;
      SmoothIsFair(w);
      held := [];
      var ok, n := Call(w, job.id);
      if !ok {
        log := log + [Reserve(false)];
        ghost var more := Fail(w, job, "scheduler reserve failed", start);
        RefusedPart(before, more, w);
        RefusalExplained(more, w.container);
        es := [Reserve(false)] + more;
        assert before + [Reserve(false)] + more == before + es;
        return Err(FailedPrecond), es, held;
      }
      DeploysIsGoing(old(record), job, imageRef);
      log := log + [Reserve(true)];
      r, held := RunReserved(w, job, imageRef, metadata, start);
      ok, n := Call(w, job.id);
      log := log + [Release];
      ReservedPart(before, held, w);
      DrainedHeld(before, held, w, containers, job);
      HeldExplained(held, w.container);
      es := [Reserve(true)] + held + [Release];
      assert before + [Reserve(true)] + held + [Release] == before + es;
    }

    /** One attempt at a deploy or rollback job. */
    method Run(w: World, job: Job, metadata: map<string, string>) returns (r: Result<()>, ghost es: seq<Effect>)
      modifies this`record, this`tick, this`log, this`containers
      ensures log == old(log) + es
      ensures Guarded(es, w) && Balanced(es) && Creations(es) <= 1
      ensures r.Ok? ==> Lists(es) && (Listed(true) in es ==> Drained(containers, job, w.container, es))
      ensures r.Ok? ==> exists held :: Framed(es, held) && Succeeded(held, w, job)
      ensures (r == Err(FailedPrecond) && es != [] <==> MarksFailed(es)) && Explained(es, w.container)
      ensures CancelledThroughout(w) ==> r.Err? && Creations(es) == 0
      ensures Smooth(w) && Startable(old(record), job) ==>
                r.Ok? && (exists held :: Framed(es, held) && Replaced(held, w, job, old(containers), containers))
                && SameImage(old(record), record, job) && record.rows[job.id].status == D.Live
      ensures Alone(w) && r.Ok? ==> es != [] && EndsAs(record, job, SaysLive(es[..|es| - 1]))
      ensures Calm(w, job.id) && (D.Spent(old(record), job.id) || Changed(es) || Creations(es) > 0) ==> D.Spent(record, job.id)
      ensures Calm(w, job.id) && D.Spent(old(record), job.id) && !job.rollback ==> r.Err? && es == []
    {
      hide *;
      var start := w.clock(tick);
      es := [];
      Nothing(w);
      NothingExplained(w.container);
      SmoothIsFair(w);
      StartableIsOwned(old(record), job);
      var admitted := Admit(w, job);
      if admitted.Err? {
        return Err(admitted.code), es;
      }
      var ok, n := Call(w, job.id);
      SchedulingIsNotReady("scheduling resources");
      r, es := Advance(w, job, D.Scheduling, "scheduling resources", start);
      QuietIsBalanced(es, w);
      if r.Err? {
        NothingMarked(es);
        return;
      }
      ghost var scheduled, first := record, es;
      ghost var more: seq<Effect>, held: seq<Effect>;
      StartsDeploying(old(record), scheduled, job, admitted.value);
      r, more, held := ReserveAndRun(w, job, admitted.value, metadata, start, es);
      FailureCat(es, more, w.container);
      es := es + more;
      SameImageTrans(old(record), scheduled, record, job);
      if r.Ok? {
        assert Framed(es, held) by { FramedIs(first, more, held); }
        SucceededLists(es, held, w, job);
      }
      NothingMarked(es);
    }

    /**
      A deploy job retried any number of times creates at most one container, as
      long as nobody else makes the deployment ready again.
     */
    method RunRepeatedly(worlds: nat -> World, job: Job, metadata: map<string, string>, attempts: nat) returns (ghost all: seq<Effect>)
      requires !job.rollback
      modifies this`record, this`tick, this`log, this`containers
      ensures log == old(log) + all
      ensures (forall i :: Calm(worlds(i), job.id)) ==> Creations(all) <= 1
    {
      hide *;
      all := [];
      Nothing(worlds(0));
      for i := 0 to attempts
        invariant log == old(log) + all
        invariant (forall k :: Calm(worlds(k), job.id)) ==> Creations(all) == 0 || (Creations(all) == 1 && D.Spent(record, job.id))
      {
        var r, es := Run(worlds(i), job, metadata);
        CreationsCat(all, es);
        all := all + es;
      }
    }

    method CancelOne(w: World, job: Job, id: string) returns (ghost es: seq<Effect>)
      modifies this`record, this`tick, this`log, this`containers
      ensures log == old(log) + es
      ensures |es| == 3 && es[0] == StopContainer(id) && es[1].RemoveContainer? && es[1].id == id && es[2].MarkedRemoved? && es[2].id == id
      ensures forall c :: c in containers && !c.removed ==> c in old(containers) && (c.id == id ==> MarkedRemoved(id, false) in es)
      ensures Fair(w) ==> MarkedRemoved(id, false) !in es
    {
      hide Calm, D.Spent, D.Exec, Alone, Fair;
      var ok, n := Call(w, job.id);
      var removed: bool;
      removed, n := Call(w, job.id);
      var marked: bool;
      marked, n := Call(w, job.id);
      if marked {
        Unmarked(containers, id);
        containers := MarkAll(containers, id);
      }
      es := [StopContainer(id), RemoveContainer(id, removed), MarkedRemoved(id, marked)];
      log := log + [StopContainer(id), RemoveContainer(id, removed), MarkedRemoved(id, marked)];
      assert es[2] in es;
    }

    method CancelAll(w: World, job: Job, listed: seq<Container>) returns (ghost driven: seq<Effect>)
      modifies this`record, this`tick, this`log, this`containers
      ensures log == old(log) + driven
      ensures forall e :: e in driven ==> !e.Wrote? && !e.Listed?
      ensures forall e :: e in driven && (e.StopContainer? || e.RemoveContainer?) ==> exists c :: c in listed && c.id == e.id
      ensures forall c :: c in listed ==>
                StopContainer(c.id) in driven && (RemoveContainer(c.id, true) in driven || RemoveContainer(c.id, false) in driven)
      ensures forall c :: c in containers && !c.removed ==> c in old(containers) && (c in listed ==> MarkedRemoved(c.id, false) in driven)
      ensures Fair(w) ==> forall id :: MarkedRemoved(id, false) !in driven
    {
      hide *;
      driven := [];
      for i := 0 to |listed|
        invariant log == old(log) + driven
        invariant forall e :: e in driven ==> !e.Wrote? && !e.Listed?
        invariant forall e :: e in driven && (e.StopContainer? || e.RemoveContainer?) ==> exists c :: c in listed && c.id == e.id
        invariant forall c :: c in listed[..i] ==>
                    StopContainer(c.id) in driven && (RemoveContainer(c.id, true) in driven || RemoveContainer(c.id, false) in driven)
        invariant forall c :: c in containers && !c.removed ==> c in old(containers) && (c in listed[..i] ==> MarkedRemoved(c.id, false) in driven)
        invariant Fair(w) ==> forall id :: MarkedRemoved(id, false) !in driven
      {
        assert listed[..i + 1] == listed[..i] + [listed[i]];
        assert listed[i] in listed;
        ghost var more := CancelOne(w, job, listed[i].id);
        assert more[0] in more && more[1] in more && more[2] in more;
        driven := driven + more;
      }
      assert listed[..|listed|] == listed;
    }

    /** Cancelling a deployment: its containers are stopped, removed and marked removed, whatever the driver says. */
    method RunCancel(w: World, job: Job) returns (r: Result<()>, ghost es: seq<Effect>)
      modifies this`record, this`tick, this`log, this`containers
      ensures log == old(log) + es && r == Err(Canceled) && Lists(es)
      ensures forall e :: e in es && (e.StopContainer? || e.RemoveContainer?) ==>
                exists c :: c in old(containers) && c.id == e.id && c.deployment == job.id && !c.removed
      ensures Listed(true) in es ==> forall c :: c in old(containers) && c.deployment == job.id && !c.removed ==>
                StopContainer(c.id) in es && (RemoveContainer(c.id, true) in es || RemoveContainer(c.id, false) in es)
      ensures Listed(true) in es ==> forall c :: c in containers && c.deployment == job.id && !c.removed ==> MarkedRemoved(c.id, false) in es
      ensures Fair(w) ==> forall c :: c in containers && c.deployment == job.id ==> c.removed
      ensures forall e :: e in es ==> !e.Wrote?
    {
      hide Calm, D.Spent, D.Exec, Alone, OfDeployment, Fair;
      var found, n := Call(w, job.id);
      log := log + [Listed(found)];
      var listed: seq<Container> := if found then OfDeployment(containers, job.id) else [];
      ghost var driven := CancelAll(w, job, listed);
      var ok: bool;
      ok, n := Call(w, job.id);
      es := [Listed(found)] + driven;
      assert es[0] in es;
      r := Err(Canceled);
    }

    /** Putting a project to sleep stops its containers and removes none. */
    method RunSleep(w: World, job: Job) returns (r: Result<()>, ghost es: seq<Effect>)
      modifies this`record, this`tick, this`log
      ensures log == old(log) + es && (r.Err? ==> es == [Listed(false)])
      ensures forall e :: e in es ==> !e.Wrote? && !e.RemoveContainer?
      ensures r.Ok? ==> forall id :: StopContainer(id) in es <==> exists c :: c in ActiveOf(containers, job.project) && c.id == id
      ensures r.Ok? ==> forall c :: c in containers && c.project == job.project && c.active && !c.removed ==>
                MarkedStopped(c.id, true) in es || MarkedStopped(c.id, false) in es
      ensures Fair(w) ==> r.Ok?
    {
      hide *;
      var ok, n := Call(w, job.id);
      log := log + [Listed(ok)];
      es := [Listed(ok)];
      if !ok {
        return Err(Internal), es;
      }
      var listed := ActiveOf(containers, job.project);
      for i := 0 to |listed|
        invariant log == old(log) + es
        invariant forall e :: e in es ==> !e.Wrote? && !e.RemoveContainer?
        invariant forall id :: StopContainer(id) in es <==> exists k :: 0 <= k < i && listed[k].id == id
        invariant forall k :: 0 <= k < i ==> MarkedStopped(listed[k].id, true) in es || MarkedStopped(listed[k].id, false) in es
      {
        var id := listed[i].id;
        ok, n := Call(w, job.id);
        ok, n := Call(w, job.id);
        log := log + [StopContainer(id), MarkedStopped(id, ok)];
        es := es + [StopContainer(id), MarkedStopped(id, ok)];
      }
      r := Ok(());
    }
  }
}
