/** What a pipeline run does, as a trace of its effects, and what can be said of such traces. */
module PipelineTrace {
  import opened Common
  import D = DeploymentRecord
  import H = Health

  /** What the pipeline does to the outside, and how it went. */
  datatype Effect =
    | Wrote(kind: D.Kind, ok: bool)
    | Phase(ok: bool)
    | Reserve(ok: bool) | Release
    | Pull(ok: bool) | LoadConfig(ok: bool)
    | CreateContainer(id: string, ok: bool) | StartContainer(id: string, ok: bool)
    | StopContainer(id: string) | RemoveContainer(id: string, ok: bool)
    | Recorded(id: string, ok: bool)
    | Checked(results: seq<H.Probe>, outcome: H.Outcome)
    | Listed(ok: bool)
    | MarkedRemoved(id: string, ok: bool) | MarkedStopped(id: string, ok: bool)

  /** A row of the container table; removed means removed_at is set. */
  datatype Container = Container(id: string, deployment: D.Id, project: string, active: bool, removed: bool)

  /**
    Everything the pipeline cannot decide: by call number, whether the call
    fails, whether the context is found cancelled, the two clocks, and what
    other clients do to the deployment record before it; and what the driver,
    the artifact store and the health probes deliver.
   */
  datatype World = World(
    fails: nat -> bool, cancelled: nat -> bool, clock: nat -> int, txStart: nat -> int, others: nat -> seq<D.Op>,
    container: string, artifactTag: string, health: H.Config, probes: H.Env)

  datatype Job = Job(org: string, project: string, id: D.Id, rollback: bool)

  /** Nobody else makes the deployment ready again. */
  ghost predicate Calm(w: World, id: D.Id) {
    forall n, op :: op in w.others(n) ==> op.id != id || !D.MakesReady(op.kind)
  }

  /** Nobody else touches the record at all. */
  ghost predicate Alone(w: World) { forall n :: w.others(n) == [] }

  // ------------------------------------------------------ what a trace shows

  /** Stops or removes a container other than the one this run created. */
  predicate Foreign(e: Effect, own: string) {
    (e.StopContainer? || e.RemoveContainer?) && e.id != own
  }

  /** A health check that ended well, by the thresholds. */
  ghost predicate Healthy(e: Effect, w: World) {
    e.Checked? && e.outcome.Healthy? && H.EndsHealthy(H.Defaults(w.health), e.results)
  }

  ghost predicate HealthyBefore(es: seq<Effect>, k: nat, w: World)
    requires k <= |es|
  {
    exists j :: 0 <= j < k && Healthy(es[j], w)
  }

  /** Foreign containers are touched only after a passed health check. */
  ghost predicate Guarded(es: seq<Effect>, w: World) {
    forall k :: 0 <= k < |es| && Foreign(es[k], w.container) ==> HealthyBefore(es, k, w)
  }

  /** Nothing was reserved, or one reservation was, and its one release is the very last thing done. */
  ghost predicate Balanced(es: seq<Effect>) {
    || (forall e :: e in es ==> e != Reserve(true) && !e.Release?)
    || (exists before, held :: es == before + [Reserve(true)] + held + [Release] && Unreserving(before) && Unreserving(held))
  }

  function Creations(es: seq<Effect>): nat {
    if es == [] then 0 else (if es[0].CreateContainer? then 1 else 0) + Creations(es[1..])
  }

  /** No container is created, stopped, removed or listed, and nothing is reserved or released. */
  predicate Quiet(es: seq<Effect>) {
    forall e :: e in es ==>
      !e.CreateContainer? && !e.StopContainer? && !e.RemoveContainer? && !e.Reserve? && !e.Release? && !e.Listed?
  }

  /** The record took a write of this run. */
  predicate Changed(es: seq<Effect>) { exists e :: e in es && e.Wrote? && e.ok }

  /** Rows still standing for the project. */
  function ActiveOf(containers: seq<Container>, project: string): (cs: seq<Container>)
    ensures forall c :: c in cs <==> c in containers && c.project == project && c.active && !c.removed
  {
    if containers == [] then []
    else
      var n := |containers| - 1;
      var c := containers[n];
      (if c.project == project && c.active && !c.removed then [c] else []) + ActiveOf(containers[..n], project)
  }

  function OfDeployment(containers: seq<Container>, id: D.Id): (cs: seq<Container>)
    ensures forall c :: c in cs <==> c in containers && c.deployment == id && !c.removed
  {
    if containers == [] then []
    else
      var c := containers[0];
      (if c.deployment == id && !c.removed then [c] else []) + OfDeployment(containers[1..], id)
  }

  function MarkAll(containers: seq<Container>, id: string): (cs: seq<Container>)
    ensures |cs| == |containers|
    ensures forall i :: 0 <= i < |cs| ==> cs[i] == if containers[i].id == id then containers[i].(removed := true) else containers[i]
  {
    if containers == [] then []
    else
      var c := containers[0];
      [if c.id == id then c.(removed := true) else c] + MarkAll(containers[1..], id)
  }

  /** Every standing container of the project is this deployment's, or its removal or its mark failed. */
  ghost predicate Drained(containers: seq<Container>, job: Job, own: string, es: seq<Effect>) {
    forall c :: c in containers && c.project == job.project && c.active && !c.removed ==>
      c.deployment == job.id || c.id == own || RemoveContainer(c.id, false) in es || MarkedRemoved(c.id, false) in es
  }

  lemma {:induction false} CreationsCat(a: seq<Effect>, b: seq<Effect>)
    ensures Creations(a + b) == Creations(a) + Creations(b)
  {
    if a == [] {
      assert a + b == b;
    } else {
      assert (a + b)[1..] == a[1..] + b;
      CreationsCat(a[1..], b);
    }
  }

  lemma {:induction false} QuietCreations(es: seq<Effect>)
    requires Quiet(es)
    ensures Creations(es) == 0
  {
    if es != [] {
      assert es[0] in es;
      QuietCreations(es[1..]);
    }
  }

  /** What creating and starting the own container leaves on the trace. */
  predicate OwnLaunch(es: seq<Effect>, own: string) {
    || (|es| == 1 && es[0] == CreateContainer(own, es[0].CreateContainer? && es[0].ok))
    || (|es| == 2 && es[0] == CreateContainer(own, true) && es[1] == StartContainer(own, true))
    || (|es| == 3 && es[0] == CreateContainer(own, true) && es[1] == StartContainer(own, false)
        && es[2] == RemoveContainer(own, es[2].RemoveContainer? && es[2].ok))
  }

  /** No driver call on another container, no reservation, no listing. */
  predicate OwnOnly(es: seq<Effect>, own: string) {
    forall e :: e in es ==> !Foreign(e, own) && !e.Reserve? && !e.Release? && !e.Listed?
  }

  lemma OwnLaunchIs(es: seq<Effect>, own: string)
    requires OwnLaunch(es, own)
    ensures OwnOnly(es, own) && Creations(es) == 1
  {
    CreationsCat([es[0]], es[1..]);
    assert [es[0]] + es[1..] == es;
    assert Quiet([]) && es[0..1][1..] == [];
    if |es| > 1 {
      assert es[1..][1..] == es[2..];
      if |es| > 2 { assert es[2..][1..] == []; }
    }
  }

  lemma LaunchThen(es: seq<Effect>, more: seq<Effect>, own: string)
    requires OwnOnly(es, own) && Quiet(more)
    ensures OwnOnly(es + more, own) && Creations(es + more) == Creations(es)
  {
    CreationsCat(es, more);
    QuietCreations(more);
  }

  predicate Unreserving(es: seq<Effect>) { forall e :: e in es ==> !e.Reserve? && !e.Release? }

  lemma NothingIsQuiet()
    ensures Quiet([])
  {}

  lemma QuietCat(a: seq<Effect>, b: seq<Effect>)
    requires Quiet(a) && Quiet(b)
    ensures Quiet(a + b)
  {}

  lemma QuietPart(es: seq<Effect>, w: World)
    requires Quiet(es)
    ensures Unreserving(es) && Guarded(es, w) && Creations(es) == 0 && Listed(true) !in es && NoCreation(es)
  {
    QuietCreations(es);
  }

  lemma LaunchPart(es: seq<Effect>, more: seq<Effect>, w: World)
    requires Unreserving(es) && Guarded(es, w) && Creations(es) == 0 && Listed(true) !in es
    requires OwnOnly(more, w.container) && Creations(more) == 1
    ensures Unreserving(es + more) && Guarded(es + more, w) && Creations(es + more) == 1 && Listed(true) !in es + more
  {
    CreationsCat(es, more);
    assert Guarded(more, w);
    GuardedCat(es, more, w);
  }

  lemma CheckPart(es: seq<Effect>, more: seq<Effect>, w: World)
    requires Unreserving(es) && Guarded(es, w) && Creations(es) == 1 && Listed(true) !in es && Quiet(more)
    ensures Unreserving(es + more) && Guarded(es + more, w) && Creations(es + more) == 1 && Listed(true) !in es + more
    ensures HealthyBefore(more, |more|, w) ==> HealthyBefore(es + more, |es + more|, w)
  {
    CreationsCat(es, more);
    QuietPart(more, w);
    GuardedCat(es, more, w);
    if HealthyBefore(more, |more|, w) {
      var j :| 0 <= j < |more| && Healthy(more[j], w);
      assert (es + more)[|es| + j] == more[j];
    }
  }

  lemma {:induction false} NoCreations(es: seq<Effect>)
    requires NoCreation(es)
    ensures Creations(es) == 0
  {
    if es != [] {
      assert es[0] in es;
      NoCreations(es[1..]);
    }
  }

  lemma DrainPart(es: seq<Effect>, more: seq<Effect>, w: World, containers: seq<Container>, job: Job)
    requires Unreserving(es) && Guarded(es, w) && Creations(es) == 1 && HealthyBefore(es, |es|, w) && NoCreation(more)
    requires Listed(true) !in es
    ensures Unreserving(es + more) && Guarded(es + more, w) && Creations(es + more) == 1
    ensures (Listed(true) in more ==> Drained(containers, job, w.container, more))
        ==> (Listed(true) in es + more ==> Drained(containers, job, w.container, es + more))
  {
    CreationsCat(es, more);
    NoCreations(more);
    GuardedCat(es, more, w);
  }

  lemma FinishPart(es: seq<Effect>, more: seq<Effect>, w: World, containers: seq<Container>, job: Job)
    requires Unreserving(es) && Guarded(es, w) && Creations(es) == 1 && Quiet(more)
    ensures Unreserving(es + more) && Guarded(es + more, w) && Creations(es + more) == 1
    ensures (Listed(true) in es ==> Drained(containers, job, w.container, es))
        ==> (Listed(true) in es + more ==> Drained(containers, job, w.container, es + more))
    ensures more != [] ==> SaysLive(es + more) == SaysLive(more)
  {
    CreationsCat(es, more);
    QuietPart(more, w);
    GuardedCat(es, more, w);
  }

  lemma ReservedPart(before: seq<Effect>, held: seq<Effect>, w: World)
    requires Quiet(before) && Unreserving(held) && Guarded(held, w) && Creations(held) <= 1
    ensures var es := before + [Reserve(true)] + held + [Release];
            Balanced(es) && Guarded(es, w) && Creations(es) == Creations(held)
  {
    QuietPart(before, w);
    var first := [Reserve(true)];
    assert first[1..] == [] && [Release][1..] == [];
    GuardedCat(before, first, w);
    CreationsCat(before, first);
    GuardedCat(before + first, held, w);
    CreationsCat(before + first, held);
    GuardedCat(before + first + held, [Release], w);
    CreationsCat(before + first + held, [Release]);
  }

  lemma Nothing(w: World)
    ensures Guarded([], w) && Balanced([]) && Creations([]) == 0 && !Changed([])
  {}

  lemma QuietIsBalanced(es: seq<Effect>, w: World)
    requires Quiet(es)
    ensures Guarded(es, w) && Balanced(es) && Creations(es) == 0 && Listed(true) !in es
  {
    QuietPart(es, w);
  }

  lemma RefusedPart(es: seq<Effect>, more: seq<Effect>, w: World)
    requires Quiet(es) && Quiet(more)
    ensures var all := es + [Reserve(false)] + more;
            Guarded(all, w) && Balanced(all) && Creations(all) == 0 && Listed(true) !in all
  {
    QuietPart(es, w);
    QuietPart(more, w);
    assert [Reserve(false)][1..] == [];
    CreationsCat(es, [Reserve(false)]);
    CreationsCat(es + [Reserve(false)], more);
  }

  lemma DrainedHeld(before: seq<Effect>, held: seq<Effect>, w: World, containers: seq<Container>, job: Job)
    requires Quiet(before)
    ensures var es := before + [Reserve(true)] + held + [Release];
            && ((Listed(true) in held ==> Drained(containers, job, w.container, held))
                ==> (Listed(true) in es ==> Drained(containers, job, w.container, es)))
            && (held != [] ==> SaysLive(es[..|es| - 1]) == SaysLive(held))
  {
    var es := before + [Reserve(true)] + held + [Release];
    assert es[..|es| - 1] == before + [Reserve(true)] + held;
  }

  /** Only stops and removals. */
  predicate OnlyDrives(es: seq<Effect>) { forall e :: e in es ==> e.StopContainer? || e.RemoveContainer? }

  predicate NoCreation(es: seq<Effect>) { forall e :: e in es ==> !e.CreateContainer? && !e.Reserve? && !e.Release? }

  /** The trace ends with the status set to live by an ordinary update. */
  predicate SaysLive(es: seq<Effect>) {
    es != [] && var e := es[|es| - 1]; e.Wrote? && e.ok && e.kind.UpdateStatus? && e.kind.to.Live?
  }

  /** A finished run leaves the deployment live, a rollback too unless its last update did not go through. */
  ghost predicate EndsAs(record: D.State, job: Job, saysLive: bool) {
    job.id in record.rows && record.rows[job.id].status == if job.rollback && !saysLive then D.RolledBack else D.Live
  }

  lemma QuietNoCreation(es: seq<Effect>)
    requires Quiet(es)
    ensures NoCreation(es) && Listed(true) !in es
  {}

  lemma DrainedLater(containers: seq<Container>, job: Job, own: string, es: seq<Effect>, more: seq<Effect>)
    requires Listed(true) in more ==> Drained(containers, job, own, more)
    requires Listed(true) !in es
    ensures Listed(true) in es + more ==> Drained(containers, job, own, es + more)
  {}

  /** What is still unremoved after marking was there before, under another id. */
  lemma Unmarked(containers: seq<Container>, id: string)
    ensures forall c :: c in MarkAll(containers, id) && !c.removed ==> c in containers && c.id != id
  {
    var marked := MarkAll(containers, id);
    forall c | c in marked && !c.removed ensures c in containers && c.id != id {
      var i :| 0 <= i < |marked| && marked[i] == c;
      assert containers[i] in containers;
    }
  }

  lemma GuardedCat(a: seq<Effect>, b: seq<Effect>, w: World)
    requires Guarded(a, w) && (Guarded(b, w) || HealthyBefore(a, |a|, w))
    ensures Guarded(a + b, w)
  {
    var es := a + b;
    forall k | 0 <= k < |es| && Foreign(es[k], w.container) ensures HealthyBefore(es, k, w) {
      if k < |a| {
        var j :| 0 <= j < k && Healthy(a[j], w);
        assert Healthy(es[j], w);
      } else if HealthyBefore(a, |a|, w) {
        var j :| 0 <= j < |a| && Healthy(a[j], w);
        assert Healthy(es[j], w);
      } else {
        assert es[k] == b[k - |a|];
        var j :| 0 <= j < k - |a| && Healthy(b[j], w);
        assert Healthy(es[j + |a|], w);
      }
    }
  }

  // ------------------------------------------------------------ how a run fails

  /** The deployment was to be marked failed. */
  ghost predicate MarksFailed(es: seq<Effect>) { exists e :: e in es && e.Wrote? && e.kind.DeployFailed? }

  ghost predicate FailedFor(es: seq<Effect>, reason: string) {
    exists e :: e in es && e.Wrote? && e.kind.DeployFailed? && e.kind.reason == reason
  }

  /** Whatever outside step failed, the deployment was to be marked failed for it; a container that did not start was removed. */
  ghost predicate Explained(es: seq<Effect>, own: string) {
    && (Reserve(false) in es ==> FailedFor(es, "scheduler reserve failed"))
    && (Pull(false) in es ==> FailedFor(es, "image pull failed"))
    && (LoadConfig(false) in es ==> FailedFor(es, "configuration load failed"))
    && (CreateContainer(own, false) in es || StartContainer(own, false) in es ==> FailedFor(es, "container creation failed"))
    && (StartContainer(own, false) in es ==> RemoveContainer(own, true) in es || RemoveContainer(own, false) in es)
    && (forall e :: e in es && e.Checked? && !e.outcome.Healthy? ==> FailedFor(es, "health check failed"))
  }

  lemma FailureCat(a: seq<Effect>, b: seq<Effect>, own: string)
    ensures MarksFailed(a + b) <==> MarksFailed(a) || MarksFailed(b)
    ensures Explained(a, own) && Explained(b, own) ==> Explained(a + b, own)
  {
    FailedForCat(a, b);
    hide FailedFor;
    if e :| e in a && e.Wrote? && e.kind.DeployFailed? { assert e in a + b; }
    if e :| e in b && e.Wrote? && e.kind.DeployFailed? { assert e in a + b; }
  }

  lemma FailedForCat(a: seq<Effect>, b: seq<Effect>)
    ensures forall reason :: FailedFor(a, reason) || FailedFor(b, reason) ==> FailedFor(a + b, reason)
  {
    forall reason | FailedFor(a, reason) || FailedFor(b, reason) ensures FailedFor(a + b, reason) {
      if FailedFor(a, reason) {
        var e :| e in a && e.Wrote? && e.kind.DeployFailed? && e.kind.reason == reason;
        assert e in a + b;
      } else {
        var e :| e in b && e.Wrote? && e.kind.DeployFailed? && e.kind.reason == reason;
        assert e in a + b;
      }
    }
  }

  /** Nothing of what is to be explained, and no failure marked. */
  predicate Unremarkable(es: seq<Effect>) {
    forall e :: e in es ==> e.Phase? || e.Listed? || e.Recorded? || e.StopContainer? || e.RemoveContainer? || e.MarkedRemoved? || e.Release?
                            || (e.Wrote? && !e.kind.DeployFailed?) || e == Reserve(true)
  }

  lemma UnremarkableIs(es: seq<Effect>, own: string)
    requires Unremarkable(es)
    ensures !MarksFailed(es) && Explained(es, own)
  {}

  predicate Lists(es: seq<Effect>) { Listed(true) in es || Listed(false) in es }

  lemma LaunchUnmarked(es: seq<Effect>, own: string)
    requires OwnLaunch(es, own)
    ensures !MarksFailed(es)
    ensures CreateContainer(own, false) !in es && StartContainer(own, false) !in es ==> Explained(es, own)
  {}

  lemma RecordedIs(own: string, ok: bool)
    ensures Quiet([Recorded(own, ok)]) && !MarksFailed([Recorded(own, ok)]) && Explained([Recorded(own, ok)], own)
  {}

  lemma LaunchExplained(es: seq<Effect>, more: seq<Effect>, own: string)
    requires OwnLaunch(es, own) && MarksFailed(more) && FailedFor(more, "container creation failed")
    requires forall e :: e in more ==> e.Wrote? || e.Phase?
    ensures MarksFailed(es + more) && Explained(es + more, own)
  {
    FailureCat(es, more, own);
    FailedForCat(es, more);
    hide FailedFor, MarksFailed;
    if StartContainer(own, false) in es {
      assert es[2] in es + more && es[2] == RemoveContainer(own, es[2].RemoveContainer? && es[2].ok);
    }
  }

  lemma OutsideUnmarked(e: Effect, own: string)
    requires e.Pull? || e.LoadConfig?
    ensures Quiet([e]) && !MarksFailed([e]) && (e.ok ==> Explained([e], own))
  {}

  lemma OutsideExplained(e: Effect, more: seq<Effect>, reason: string, own: string)
    requires (e.Pull? && reason == "image pull failed") || (e.LoadConfig? && reason == "configuration load failed")
    requires MarksFailed(more) && FailedFor(more, reason) && forall x :: x in more ==> x.Wrote? || x.Phase?
    ensures MarksFailed([e] + more) && Explained([e] + more, own)
  {
    FailureCat([e], more, own);
    FailedForCat([e], more);
    hide FailedFor, MarksFailed;
  }

  lemma RefusalExplained(more: seq<Effect>, own: string)
    requires MarksFailed(more) && FailedFor(more, "scheduler reserve failed") && forall e :: e in more ==> e.Wrote? || e.Phase?
    ensures MarksFailed([Reserve(false)] + more) && Explained([Reserve(false)] + more, own)
  {
    FailureCat([Reserve(false)], more, own);
    FailedForCat([Reserve(false)], more);
    hide FailedFor, MarksFailed;
  }

  lemma HeldExplained(held: seq<Effect>, own: string)
    requires Explained(held, own)
    ensures var es := [Reserve(true)] + held + [Release]; Explained(es, own) && (MarksFailed(es) <==> MarksFailed(held))
  {
    UnremarkableIs([Reserve(true)], own);
    UnremarkableIs([Release], own);
    FailureCat([Reserve(true)], held, own);
    FailureCat([Reserve(true)] + held, [Release], own);
  }

  lemma NothingExplained(own: string)
    ensures Explained([], own) && !MarksFailed([])
  {}

  lemma NothingMarked(es: seq<Effect>)
    ensures MarksFailed(es) ==> es != []
  {}

  lemma HealthyUnmarked(e: Effect, own: string)
    requires e.Checked? && e.outcome.Healthy?
    ensures !MarksFailed([e]) && Explained([e], own)
  {}

  lemma UnhealthyExplained(e: Effect, more: seq<Effect>, own: string)
    requires e.Checked? && MarksFailed(more) && FailedFor(more, "health check failed") && forall x :: x in more ==> x.Wrote? || x.Phase?
    ensures MarksFailed([e] + more) && Explained([e] + more, own)
  {
    FailureCat([e], more, own);
    FailedForCat([e], more);
    hide FailedFor, MarksFailed;
  }

  // -------------------------------------------------------- a run nothing disturbs

  /** No call fails, nobody cancels, nobody else writes. */
  ghost predicate Fair(w: World) { forall n :: !w.fails(n) && !w.cancelled(n) && w.others(n) == [] }

  /** And the new container becomes healthy in time. */
  ghost predicate Smooth(w: World) { Fair(w) && exists n: nat :: H.Ends(H.Defaults(w.health), w.probes, n, H.Healthy) }

  /** It does when it answers well from the first probe on. */
  lemma SmoothWhen(w: World)
    requires Fair(w)
    requires forall k :: 0 <= k < H.Wanted(w.health, true) ==>
               H.CheckOnce(w.probes.observed(k)).success && !w.probes.cancelled(k) && H.BeforeDeadline(w.health, w.probes, k)
    ensures Smooth(w)
  {
    H.JudgedAfter(w.health, w.probes, true);
  }

  ghost predicate CancelledThroughout(w: World) { forall n :: w.cancelled(n) }

  ghost predicate Owned(s: D.State, job: Job) { job.id in s.rows && s.rows[job.id].org == job.org }

  ghost predicate Going(s: D.State, job: Job) { Owned(s, job) && s.rows[job.id].status != D.Cancelled && s.rows[job.id].status != D.Failed }

  /** What the pipeline asks of a deployment before it starts. */
  ghost predicate Startable(s: D.State, job: Job) {
    && job.id != "" && Owned(s, job) && s.rows[job.id].status != D.Cancelled
    && (job.rollback || (s.rows[job.id].imageTag != "" && (s.rows[job.id].status == D.Status.Built || s.rows[job.id].status == D.RollingBack)))
  }

  ghost predicate SameImage(a: D.State, b: D.State, job: Job) {
    Owned(a, job) && Owned(b, job) && b.rows[job.id].imageTag == a.rows[job.id].imageTag
  }

  ghost predicate Proceeds(a: D.State, b: D.State, job: Job) { Going(b, job) && SameImage(a, b, job) }

  lemma SmoothIsFair(w: World)
    ensures Smooth(w) ==> Fair(w)
  {}

  /** The image a deploy would record is the one the deployment has. */
  ghost predicate Deploys(s: D.State, job: Job, imageRef: string) {
    Going(s, job) && (job.rollback || imageRef == s.rows[job.id].imageTag)
  }

  lemma DeploysIsGoing(s: D.State, job: Job, imageRef: string)
    ensures Deploys(s, job, imageRef) ==> Going(s, job)
    ensures Going(s, job) ==> SameImage(s, s, job)
  {}

  lemma ProceedsTrans(a: D.State, b: D.State, c: D.State, job: Job, imageRef: string)
    ensures SameImage(a, b, job) && Proceeds(b, c, job) ==> Going(c, job) && SameImage(a, c, job)
    ensures Deploys(a, job, imageRef) && SameImage(a, b, job) && Proceeds(b, c, job) ==> Deploys(c, job, imageRef)
  {}

  lemma SchedulingIsNotReady(message: string)
    ensures !D.MakesReady(D.UpdateStatus(D.Scheduling, message, ""))
  {}

  lemma StartableIsOwned(s: D.State, job: Job)
    ensures Startable(s, job) ==> Owned(s, job)
  {}

  lemma StartsDeploying(a: D.State, b: D.State, job: Job, imageRef: string)
    ensures Startable(a, job) && Proceeds(a, b, job)
            && imageRef == (if a.rows[job.id].imageTag != "" then a.rows[job.id].imageTag else imageRef) ==>
              Deploys(b, job, imageRef) && SameImage(a, b, job)
  {}

  lemma SameImageTrans(a: D.State, b: D.State, c: D.State, job: Job)
    ensures SameImage(a, b, job) && SameImage(b, c, job) ==> SameImage(a, c, job)
  {}

  lemma ClosingKeepsImage(d: D.Deployment, op: D.Op)
    requires op.kind.MarkRolledBack? || op.kind.DeployComplete?
    ensures op.kind.MarkRolledBack? || op.kind.deployed.imageTag == d.imageTag ==> D.Changed(d, op).imageTag == d.imageTag
    ensures D.Changed(d, op).org == d.org
  {}

  ghost function Steps(to: D.Status, message: string): seq<Effect> { [Phase(true), Wrote(D.UpdateStatus(to, message, ""), true)] }

  ghost function Fetching(): seq<Effect> {
    Steps(D.Scheduling, "resources reserved") + Steps(D.Deploying, "pulling image") + [Pull(true)]
  }

  ghost function Preparing(): seq<Effect> {
    Fetching() + Steps(D.Deploying, "preparing runtime") + [LoadConfig(true)] + Steps(D.Deploying, "creating container")
  }

  ghost function Launching(own: string, recorded: bool): seq<Effect> {
    [CreateContainer(own, true), StartContainer(own, true)] + [Recorded(own, recorded)]
  }

  ghost predicate Waiting(es: seq<Effect>, w: World) {
    |es| == 3 && es[..2] == Steps(D.Deploying, "waiting for health") && Healthy(es[2], w)
  }

  ghost function Drive(ids: seq<string>): seq<Effect> {
    if ids == [] then []
    else Drive(ids[..|ids| - 1]) + [StopContainer(ids[|ids| - 1]), RemoveContainer(ids[|ids| - 1], true)]
  }

  ghost function Marks(ids: seq<string>): seq<Effect> {
    if ids == [] then [] else Marks(ids[..|ids| - 1]) + [MarkedRemoved(ids[|ids| - 1], true)]
  }

  /** Traffic switched, and the project's containers listed for draining. */
  ghost predicate Switched(es: seq<Effect>) {
    |es| >= 5 && es[..4] == Steps(D.Deploying, "switching traffic") + Steps(D.Deploying, "cleanup") && es[4].Listed?
  }

  /** The closing write went through. */
  ghost predicate Closed(es: seq<Effect>, job: Job) {
    es != [] && es[0].Wrote? && es[0].ok && if job.rollback then es[0].kind.MarkRolledBack? else es[0].kind.DeployComplete?
  }

  ghost predicate Closing(es: seq<Effect>, job: Job) {
    |es| == 3 && Closed(es, job) && es[1..] == Steps(D.Live, "deployment complete")
  }

  /** The order of events in every successful run, between reservation and release. */
  ghost predicate Succeeded(es: seq<Effect>, w: World, job: Job) {
    exists recorded, waiting, switched, closed ::
      && Waiting(waiting, w) && Switched(switched) && Closed(closed, job)
      && es == Preparing() + Launching(w.container, recorded) + waiting + switched + closed
  }

  lemma SucceededIs(launch: seq<Effect>, check: seq<Effect>, drain: seq<Effect>, finish: seq<Effect>, w: World, job: Job)
    requires (exists recorded :: launch == Launching(w.container, recorded)) && Waiting(check, w) && Switched(drain) && Closed(finish, job)
    ensures Succeeded(Preparing() + launch + check + drain + finish, w, job)
  {
    hide Launching, Preparing, Waiting, Switched, Closed;
  }

  /** The reserved part of a run that got so far. */
  ghost predicate Framed(es: seq<Effect>, held: seq<Effect>) {
    es == Steps(D.Scheduling, "scheduling resources") + ([Reserve(true)] + held + [Release])
  }

  lemma FramedIs(first: seq<Effect>, more: seq<Effect>, held: seq<Effect>)
    requires first == Steps(D.Scheduling, "scheduling resources") && more == [Reserve(true)] + held + [Release]
    ensures Framed(first + more, held)
  {}

  lemma SucceededLists(es: seq<Effect>, held: seq<Effect>, w: World, job: Job)
    requires Framed(es, held) && Succeeded(held, w, job)
    ensures Lists(es)
  {
    var recorded, waiting, switched, closed :|
      && Waiting(waiting, w) && Switched(switched) && Closed(closed, job)
      && held == Preparing() + Launching(w.container, recorded) + waiting + switched + closed;
    hide Preparing, Launching, Waiting, Closed, Steps, Succeeded;
    assert switched[4] in held;
    assert switched[4] == Listed(true) || switched[4] == Listed(false);
    assert held[|held| - |closed| - |switched| + 4] == switched[4];
    assert switched[4] in es;
  }

  /** The ids of standing containers of the project that belong to other deployments. */
  ghost function Outdated(containers: seq<Container>, job: Job, own: string): set<string> {
    set c | c in containers && c.project == job.project && c.active && !c.removed && c.id != own && c.deployment != job.id :: c.id
  }

  ghost predicate MarkedExactly(before: seq<Container>, after: seq<Container>, gone: set<string>) {
    |after| == |before| && forall i :: 0 <= i < |before| ==>
      after[i] == if before[i].id in gone then before[i].(removed := true) else before[i]
  }

  /** Listing and draining, nothing failing. */
  ghost predicate DrivenWith(es: seq<Effect>, job: Job, own: string, before: seq<Container>, after: seq<Container>) {
    exists ids :: es == [Listed(true)] + Drive(ids) + Marks(ids) && (set id | id in ids) == Outdated(before, job, own)
                  && MarkedExactly(before, after, Outdated(before, job, own))
  }

  ghost predicate DrainedWith(es: seq<Effect>, job: Job, own: string, before: seq<Container>, after: seq<Container>) {
    exists more :: es == Steps(D.Deploying, "switching traffic") + Steps(D.Deploying, "cleanup") + more
                   && DrivenWith(more, job, own, before, after)
  }

  lemma NothingDriven(containers: seq<Container>)
    ensures Drive([]) == [] && Marks([]) == [] && MarkedExactly(containers, containers, set id | id in []) && OnlyDrives([])
  {}

  lemma DrainUnmarked(ok: bool, driven: seq<Effect>, marks: seq<Effect>, own: string)
    requires OnlyDrives(driven) && forall e :: e in marks ==> e.MarkedRemoved?
    ensures var es := [Listed(ok)] + driven + marks; NoCreation(es) && !MarksFailed(es) && Explained(es, own)
    ensures Listed(true) in [Listed(ok)] + driven + marks ==> ok
  {
    UnremarkableIs([Listed(ok)] + driven + marks, own);
  }

  /** Everything superseded was removed and marked, or its removal or its mark failed. */
  lemma DrainedIs(before: seq<Container>, after: seq<Container>, job: Job, own: string, ids: seq<string>, drained: seq<string>,
                  driven: seq<Effect>, marks: seq<Effect>)
    requires forall c :: c in ActiveOf(before, job.project) && c.id != own && c.deployment != job.id ==> c.id in ids
    requires forall id :: id in ids ==> id in drained || RemoveContainer(id, false) in driven
    requires forall c :: c in after && !c.removed ==> c in before && (c.id in drained ==> MarkedRemoved(c.id, false) in marks)
    ensures Drained(after, job, own, [Listed(true)] + driven + marks)
  {
    var es := [Listed(true)] + driven + marks;
    hide ActiveOf;
    forall c | c in after && c.project == job.project && c.active && !c.removed && c.deployment != job.id && c.id != own
      ensures RemoveContainer(c.id, false) in es || MarkedRemoved(c.id, false) in es
    {
      assert c in ActiveOf(before, job.project);
    }
  }

  lemma DrivenIs(before: seq<Container>, after: seq<Container>, job: Job, own: string, ids: seq<string>)
    requires var listed := ActiveOf(before, job.project);
             && (forall c :: c in listed && c.id != own && c.deployment != job.id ==> c.id in ids)
             && (forall id :: id in ids ==> exists c :: c in listed && c.id == id && c.id != own && c.deployment != job.id)
    requires MarkedExactly(before, after, set id | id in ids)
    ensures DrivenWith([Listed(true)] + Drive(ids) + Marks(ids), job, own, before, after)
  {
    hide ActiveOf, Drive, Marks, MarkedExactly;
    assert (set id | id in ids) == Outdated(before, job, own);
  }

  lemma SwitchedIs(more: seq<Effect>)
    requires more != [] && more[0].Listed?
    ensures Switched(Steps(D.Deploying, "switching traffic") + Steps(D.Deploying, "cleanup") + more)
  {}

  /** Everything between reservation and release when nothing fails, and what became of the containers. */
  ghost predicate Replaced(es: seq<Effect>, w: World, job: Job, before: seq<Container>, after: seq<Container>) {
    exists waiting, switched, closing ::
      && Waiting(waiting, w) && Closing(closing, job)
      && es == Preparing() + Launching(w.container, true) + waiting + switched + closing
      && DrainedWith(switched, job, w.container, before + [Container(w.container, job.id, job.project, true, false)], after)
  }

  lemma ReplacedIs(launch: seq<Effect>, check: seq<Effect>, drain: seq<Effect>, finish: seq<Effect>, w: World, job: Job,
                   before: seq<Container>, after: seq<Container>)
    requires launch == Launching(w.container, true) && Waiting(check, w) && Closing(finish, job)
    requires DrainedWith(drain, job, w.container, before + [Container(w.container, job.id, job.project, true, false)], after)
    ensures Replaced(Preparing() + launch + check + drain + finish, w, job, before, after)
  {
    hide Launching, Preparing, Waiting, DrainedWith, Closing;
  }

  /** When the driver gave the new container an id of its own, it stands and every other deployment's container of the project is gone. */
  lemma OnlyOwnStands(es: seq<Effect>, w: World, job: Job, before: seq<Container>, after: seq<Container>)
    requires Replaced(es, w, job, before, after) && forall c :: c in before ==> c.id != w.container
    ensures Container(w.container, job.id, job.project, true, false) in after
    ensures forall c :: c in after && c.project == job.project && c.active && !c.removed ==> c.deployment == job.id
    ensures forall c :: c in before && c.project == job.project && c.active && !c.removed && c.deployment != job.id ==>
              StopContainer(c.id) in es && RemoveContainer(c.id, true) in es && MarkedRemoved(c.id, true) in es
  {
    var waiting, switched, closing :|
      && Waiting(waiting, w) && Closing(closing, job)
      && es == Preparing() + Launching(w.container, true) + waiting + switched + closing
      && DrainedWith(switched, job, w.container, before + [Container(w.container, job.id, job.project, true, false)], after);
    hide Preparing, Launching, Waiting, Closing, Replaced;
    assert forall e :: e in switched ==> e in es;
    OthersGone(switched, w.container, job, before, after);
  }

  lemma OthersGone(es: seq<Effect>, own: string, job: Job, before: seq<Container>, after: seq<Container>)
    requires DrainedWith(es, job, own, before + [Container(own, job.id, job.project, true, false)], after) && forall c :: c in before ==> c.id != own
    ensures Container(own, job.id, job.project, true, false) in after
    ensures forall c :: c in after && c.project == job.project && c.active && !c.removed ==> c.deployment == job.id
    ensures forall c :: c in before && c.project == job.project && c.active && !c.removed && c.deployment != job.id ==>
              StopContainer(c.id) in es && RemoveContainer(c.id, true) in es && MarkedRemoved(c.id, true) in es
  {
    var mine := Container(own, job.id, job.project, true, false);
    var standing := before + [mine];
    var more :| es == Steps(D.Deploying, "switching traffic") + Steps(D.Deploying, "cleanup") + more && DrivenWith(more, job, own, standing, after);
    var ids :| more == [Listed(true)] + Drive(ids) + Marks(ids) && (set id | id in ids) == Outdated(standing, job, own)
               && MarkedExactly(standing, after, Outdated(standing, job, own));
    hide Drive, Marks, Steps, DrivenWith, DrainedWith;
    assert standing[|before|] == mine && after[|before|] == mine;
    forall c | c in after && c.project == job.project && c.active && !c.removed ensures c.deployment == job.id {
      var i :| 0 <= i < |after| && after[i] == c;
      assert standing[i] in standing && standing[i] == c;
    }
    forall c | c in before && c.project == job.project && c.active && !c.removed && c.deployment != job.id
      ensures StopContainer(c.id) in es && RemoveContainer(c.id, true) in es && MarkedRemoved(c.id, true) in es
    {
      assert c in standing && c.id in Outdated(standing, job, own);
      assert c.id in (set id | id in ids);
      DrivenAndMarked(ids, c.id);
    }
  }

  lemma {:induction false} DrivenAndMarked(ids: seq<string>, id: string)
    requires id in ids
    ensures StopContainer(id) in Drive(ids) && RemoveContainer(id, true) in Drive(ids) && MarkedRemoved(id, true) in Marks(ids)
  {
    var n := |ids| - 1;
    if ids[n] != id {
      assert ids == ids[..n] + [ids[n]];
      DrivenAndMarked(ids[..n], id);
    }
  }

  // ------------------------------------------------------------ reading a trace

  function Count(es: seq<Effect>, e: Effect): nat {
    if es == [] then 0 else (if es[0] == e then 1 else 0) + Count(es[1..], e)
  }

  lemma {:induction false} CountCat(a: seq<Effect>, b: seq<Effect>, e: Effect)
    ensures Count(a + b, e) == Count(a, e) + Count(b, e)
  {
    if a == [] {
      assert a + b == b;
    } else {
      assert (a + b)[1..] == a[1..] + b;
      CountCat(a[1..], b, e);
    }
  }

  lemma {:induction false} CountNone(es: seq<Effect>, e: Effect)
    ensures Count(es, e) == 0 <==> e !in es
  {
    if es != [] {
      CountNone(es[1..], e);
    }
  }

  /** A balanced trace holds one release for its one successful reservation, or neither, and never releases first. */
  lemma OneRelease(es: seq<Effect>, prefix: nat)
    requires Balanced(es) && prefix <= |es|
    ensures Count(es, Release) == Count(es, Reserve(true)) <= 1
    ensures Count(es[..prefix], Release) <= Count(es[..prefix], Reserve(true))
  {
    hide Count;
    if forall e :: e in es ==> e != Reserve(true) && !e.Release? {
      CountNone(es, Release);
      CountNone(es, Reserve(true));
      CountNone(es[..prefix], Release);
    } else {
      var before, held :| es == before + [Reserve(true)] + held + [Release] && Unreserving(before) && Unreserving(held);
      CountHeld(before, held);
      ReleaseLast(before, held, prefix);
    }
  }

  lemma ReleaseLast(before: seq<Effect>, held: seq<Effect>, prefix: nat)
    requires Unreserving(before) && Unreserving(held) && prefix <= |before| + |held| + 2
    ensures var es := before + [Reserve(true)] + held + [Release];
            Count(es[..prefix], Release) <= Count(es[..prefix], Reserve(true))
  {
    hide Count;
    var rest := before + [Reserve(true)] + held;
    var es := rest + [Release];
    CountHeld(before, held);
    if prefix < |es| {
      assert es[..prefix] == rest[..prefix];
      assert Release !in rest;
      CountNone(es[..prefix], Release);
    } else {
      assert es[..prefix] == es;
    }
  }

  lemma CountHeld(before: seq<Effect>, held: seq<Effect>)
    requires Unreserving(before) && Unreserving(held)
    ensures var es := before + [Reserve(true)] + held + [Release]; Count(es, Release) == 1 && Count(es, Reserve(true)) == 1
  {
    var r := [Reserve(true)];
    assert r[1..] == [] && [Release][1..] == [];
    forall e | e == Release || e == Reserve(true) ensures Count(before + r + held + [Release], e) == 1 {
      CountNone(before, e);
      CountNone(held, e);
      CountCat(before, r, e);
      CountCat(before + r, held, e);
      CountCat(before + r + held, [Release], e);
    }
  }
}
