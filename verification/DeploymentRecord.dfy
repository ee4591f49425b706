/** The deployment row and its timeline: seven operations, each one transaction. */
module DeploymentRecord {
  import opened Common

  type Id = string

  /** Other: any text the column would also take. */
  datatype Status =
    | Pending | Queued | Building | Built | Scheduling | Deploying | Live | Failed | Cancelled | RollingBack | RolledBack
    | Other(text: string)

  predicate Terminal(s: Status) { s.Live? || s.Failed? || s.Cancelled? || s.RolledBack? }

  predicate Starting(s: Status) { s.Queued? || s.Building? }

  datatype Deployment = Deployment(
    org: string, status: Status, imageTag: string, runtime: string, metadata: map<string, string>, failureReason: string,
    buildMs: Option<int>, deployMs: Option<int>, createdAt: int, updatedAt: int,
    startedAt: Option<int>, finishedAt: Option<int>)

  /** at is the database's now(): the start of the writing transaction. */
  datatype Entry = Entry(deployment: Id, status: Status, message: string, at: int)

  /** Entries in commit order. */
  datatype State = State(rows: map<Id, Deployment>, events: seq<Entry>)

  const EMPTY := State(map[], [])

  datatype Built = Built(imageTag: string, runtime: string, ms: int, metadata: map<string, string>)

  datatype Deployed = Deployed(imageTag: string, ms: int, metadata: map<string, string>)

  datatype Kind =
    | Create(status: Option<Status>, imageTag: string, runtime: string, metadata: map<string, string>)
    | UpdateStatus(to: Status, message: string, reason: string)
    | BuildComplete(built: Built)
    | BuildFailed(reason: string, ms: int)
    | DeployComplete(deployed: Deployed)
    | DeployFailed(reason: string, ms: int)
    | MarkRolledBack(ms: int)

  /** One transaction: the deployer's clock for the row, the database's for the timeline. */
  datatype Op = Op(org: string, id: Id, kind: Kind, now: int, txStart: int)

  // ------------------------------------------------------------------ one step

  /** The WHERE clause, beyond the row's id and organisation. */
  predicate Guard(kind: Kind, s: Status) {
    match kind
    case BuildComplete(_) => !s.Cancelled? && !s.Failed?
    case DeployComplete(_) => !s.Cancelled? && !s.Failed?
    case BuildFailed(_, _) => !s.Cancelled? && !s.Live?
    case DeployFailed(_, _) => !s.Cancelled? && !s.Live?
    case _ => true
  }

  predicate Accepts(s: State, op: Op) {
    if op.kind.Create? then op.id !in s.rows
    else op.id in s.rows && s.rows[op.id].org == op.org && Guard(op.kind, s.rows[op.id].status)
  }

  function NewStatus(kind: Kind): Status {
    match kind
    case Create(status, _, _, _) => if status.None? then Pending else status.value
    case UpdateStatus(to, _, _) => to
    case BuildComplete(_) => Status.Built
    case BuildFailed(_, _) => Failed
    case DeployComplete(_) => Live
    case DeployFailed(_, _) => Failed
    case MarkRolledBack(_) => RolledBack
  }

  function Message(kind: Kind): string {
    match kind
    case Create(_, _, _, _) => "deployment created"
    case UpdateStatus(_, message, _) => message
    case BuildComplete(_) => "build completed"
    case BuildFailed(reason, _) => reason
    case DeployComplete(_) => "deployment live"
    case DeployFailed(reason, _) => reason
    case MarkRolledBack(_) => "rollback completed"
  }

  function Created(op: Op): Deployment
    requires op.kind.Create?
  {
    Deployment(op.org, NewStatus(op.kind), op.kind.imageTag, op.kind.runtime, op.kind.metadata, "",
               None, None, op.now, op.now, None, None)
  }

  function Changed(d: Deployment, op: Op): Deployment
    requires !op.kind.Create?
  {
    var e := d.(status := NewStatus(op.kind), updatedAt := op.now);
    match op.kind
    case UpdateStatus(to, _, reason) =>
      e.(failureReason := if reason != "" then reason else d.failureReason,
         startedAt := if Starting(to) && d.startedAt.None? then Some(op.now) else d.startedAt,
         finishedAt := if Terminal(to) then Some(op.now) else d.finishedAt)
    case BuildComplete(b) =>
      e.(imageTag := b.imageTag, runtime := b.runtime, buildMs := Some(b.ms), metadata := d.metadata + b.metadata)
    case BuildFailed(reason, ms) =>
      e.(failureReason := reason, buildMs := Some(ms), finishedAt := Some(op.now))
    case DeployComplete(b) =>
      e.(imageTag := if b.imageTag == "" then d.imageTag else b.imageTag, deployMs := Some(b.ms),
         metadata := d.metadata + b.metadata, finishedAt := Some(op.now))
    case DeployFailed(reason, ms) =>
      e.(failureReason := reason, deployMs := Some(ms), finishedAt := Some(op.now))
    case MarkRolledBack(ms) =>
      e.(deployMs := Some(ms), finishedAt := Some(op.now))
  }

  function EntryOf(op: Op): Entry { Entry(op.id, NewStatus(op.kind), Message(op.kind), op.txStart) }

  function Logged(s: State, op: Op, d: Deployment): State {
    State(s.rows[op.id := d], s.events + [EntryOf(op)])
  }

  /** A refused operation changes nothing. */
  function Apply(s: State, op: Op): State {
    if !Accepts(s, op) then s
    else Logged(s, op, if op.kind.Create? then Created(op) else Changed(s.rows[op.id], op))
  }

  // -------------------------------------------------------------- the repository

  class Repository {
    var rows: map<Id, Deployment>
    var events: seq<Entry>

    function Now(): State
      reads this
    {
      State(rows, events)
    }

    constructor ()
      ensures Now() == EMPTY
    {
      rows, events := map[], [];
    }

    method AddEvent(id: Id, status: Status, message: string, txStart: int)
      modifies this`events
      ensures events == old(events) + [Entry(id, status, message, txStart)]
    {
      events := events + [Entry(id, status, message, txStart)];
    }

    method Create(org: string, id: Id, status: Option<Status>, imageTag: string, runtime: string, metadata: map<string, string>,
                  now: int, txStart: int) returns (r: Result<Deployment>)
      modifies this
      ensures var op := Op(org, id, Kind.Create(status, imageTag, runtime, metadata), now, txStart);
              Now() == Apply(old(Now()), op) && r == if Accepts(old(Now()), op) then Ok(rows[id]) else Err(AlreadyExists)
    {
      if id in rows {
        return Err(AlreadyExists);
      }
      var s := if status.None? then Pending else status.value;
      rows := rows[id := Deployment(org, s, imageTag, runtime, metadata, "", None, None, now, now, None, None)];
      AddEvent(id, s, "deployment created", txStart);
      r := Ok(rows[id]);
    }

    method UpdateStatus(org: string, id: Id, to: Status, message: string, reason: string, now: int, txStart: int) returns (r: Result<Deployment>)
      modifies this
      ensures var op := Op(org, id, Kind.UpdateStatus(to, message, reason), now, txStart);
              Now() == Apply(old(Now()), op) && r == if Accepts(old(Now()), op) then Ok(rows[id]) else Err(NotFound)
    {
      if id !in rows || rows[id].org != org {
        return Err(NotFound);
      }
      var d := rows[id].(status := to, updatedAt := now);
      if reason != "" {
        d := d.(failureReason := reason);
      }
      if (to == Queued || to == Building) && d.startedAt.None? {
        d := d.(startedAt := Some(now));
      }
      if to == Live || to == Failed || to == Cancelled || to == RolledBack {
        d := d.(finishedAt := Some(now));
      }
      rows := rows[id := d];
      AddEvent(id, to, message, txStart);
      r := Ok(rows[id]);
    }

    method UpdateBuildComplete(org: string, id: Id, res: Built, now: int, txStart: int) returns (r: Result<Deployment>)
      modifies this
      ensures var op := Op(org, id, BuildComplete(res), now, txStart);
              Now() == Apply(old(Now()), op) && r == if Accepts(old(Now()), op) then Ok(rows[id]) else Err(NotFound)
    {
      if id !in rows || rows[id].org != org || rows[id].status == Cancelled || rows[id].status == Failed {
        return Err(NotFound);
      }
      rows := rows[id := rows[id].(status := Status.Built, imageTag := res.imageTag, runtime := res.runtime,
                                   buildMs := Some(res.ms), metadata := rows[id].metadata + res.metadata, updatedAt := now)];
      AddEvent(id, Status.Built, "build completed", txStart);
      r := Ok(rows[id]);
    }

    method MarkBuildFailed(org: string, id: Id, reason: string, ms: int, now: int, txStart: int) returns (r: Result<Deployment>)
      modifies this
      ensures var op := Op(org, id, BuildFailed(reason, ms), now, txStart);
              Now() == Apply(old(Now()), op) && r == if Accepts(old(Now()), op) then Ok(rows[id]) else Err(NotFound)
    {
      if id !in rows || rows[id].org != org || rows[id].status == Cancelled || rows[id].status == Live {
        return Err(NotFound);
      }
      rows := rows[id := rows[id].(status := Failed, failureReason := reason, buildMs := Some(ms), finishedAt := Some(now), updatedAt := now)];
      AddEvent(id, Failed, reason, txStart);
      r := Ok(rows[id]);
    }

    method UpdateDeployComplete(org: string, id: Id, res: Deployed, now: int, txStart: int) returns (r: Result<Deployment>)
      modifies this
      ensures var op := Op(org, id, DeployComplete(res), now, txStart);
              Now() == Apply(old(Now()), op) && r == if Accepts(old(Now()), op) then Ok(rows[id]) else Err(NotFound)
    {
      if id !in rows || rows[id].org != org || rows[id].status == Cancelled || rows[id].status == Failed {
        return Err(NotFound);
      }
      var d := rows[id].(status := Live, deployMs := Some(res.ms), metadata := rows[id].metadata + res.metadata,
                         finishedAt := Some(now), updatedAt := now);
      if res.imageTag != "" {
        d := d.(imageTag := res.imageTag);
      }
      rows := rows[id := d];
      AddEvent(id, Live, "deployment live", txStart);
      r := Ok(rows[id]);
    }

    method MarkDeployFailed(org: string, id: Id, reason: string, ms: int, now: int, txStart: int) returns (r: Result<Deployment>)
      modifies this
      ensures var op := Op(org, id, DeployFailed(reason, ms), now, txStart);
              Now() == Apply(old(Now()), op) && r == if Accepts(old(Now()), op) then Ok(rows[id]) else Err(NotFound)
    {
      if id !in rows || rows[id].org != org || rows[id].status == Cancelled || rows[id].status == Live {
        return Err(NotFound);
      }
      rows := rows[id := rows[id].(status := Failed, failureReason := reason, deployMs := Some(ms), finishedAt := Some(now), updatedAt := now)];
      AddEvent(id, Failed, reason, txStart);
      r := Ok(rows[id]);
    }

    method MarkRolledBack(org: string, id: Id, ms: int, now: int, txStart: int) returns (r: Result<Deployment>)
      modifies this
      ensures var op := Op(org, id, Kind.MarkRolledBack(ms), now, txStart);
              Now() == Apply(old(Now()), op) && r == if Accepts(old(Now()), op) then Ok(rows[id]) else Err(NotFound)
    {
      if id !in rows || rows[id].org != org {
        return Err(NotFound);
      }
      rows := rows[id := rows[id].(status := RolledBack, deployMs := Some(ms), finishedAt := Some(now), updatedAt := now)];
      AddEvent(id, RolledBack, "rollback completed", txStart);
      r := Ok(rows[id]);
    }

    method IsReadyToDeploy(org: string, id: Id) returns (r: Result<bool>)
      ensures r == if id in rows && rows[id].org == org then Ok(Ready(rows[id])) else Err(NotFound)
    {
      if id !in rows || rows[id].org != org {
        return Err(NotFound);
      }
      if rows[id].status == RollingBack && rows[id].imageTag != "" {
        return Ok(true);
      }
      r := Ok(rows[id].status == Status.Built && rows[id].imageTag != "");
    }
  }

  predicate Ready(d: Deployment) {
    (d.status.RollingBack? || d.status.Built?) && d.imageTag != ""
  }

  // ------------------------------------------------------------------------ runs

  function Exec(s: State, ops: seq<Op>): State
    decreases |ops|
  {
    if ops == [] then s else Exec(Apply(s, ops[0]), ops[1..])
  }

  /** The timeline of one deployment, in commit order. */
  function Of(events: seq<Entry>, id: Id): (es: seq<Entry>)
    ensures forall e :: e in es ==> e.deployment == id && e in events
  {
    if events == [] then []
    else
      var n := |events| - 1;
      Of(events[..n], id) + if events[n].deployment == id then [events[n]] else []
  }

  lemma OfSnoc(events: seq<Entry>, e: Entry, id: Id)
    ensures Of(events + [e], id) == Of(events, id) + if e.deployment == id then [e] else []
  {
    assert (events + [e])[..|events|] == events;
  }

  /** Some entry after the creation says queued or building. */
  ghost predicate SaysStarted(es: seq<Entry>) { exists k :: 1 <= k < |es| && Starting(es[k].status) }

  /** What a deployment's row and timeline say of each other. */
  ghost predicate Agree(d: Deployment, es: seq<Entry>) {
    && es != []
    && es[|es| - 1].status == d.status
    && (d.startedAt.Some? <==> SaysStarted(es))
    && (|es| == 1 ==> d.finishedAt == None)
    && (|es| > 1 && Terminal(d.status) ==> d.finishedAt.Some?)
  }

  ghost predicate Consistent(s: State, id: Id) {
    && (id in s.rows ==> Agree(s.rows[id], Of(s.events, id)))
    && (id !in s.rows ==> Of(s.events, id) == [])
  }

  lemma GrowsAgreed(d: Deployment, es: seq<Entry>, op: Op)
    requires Agree(d, es) && !op.kind.Create?
    ensures Agree(Changed(d, op), es + [EntryOf(op)])
  {
    var e := EntryOf(op);
    var all := es + [e];
    if SaysStarted(es) {
      var k :| 1 <= k < |es| && Starting(es[k].status);
      assert Starting(all[k].status);
    }
    if Starting(e.status) {
      assert Starting(all[|es|].status);
    }
    if k :| 1 <= k < |all| && Starting(all[k].status) {
      assert k < |es| ==> Starting(es[k].status);
    }
  }

  lemma StepConsistent(s: State, op: Op, id: Id)
    requires Consistent(s, id)
    ensures Consistent(Apply(s, op), id)
  {
    if Accepts(s, op) {
      OfSnoc(s.events, EntryOf(op), id);
      if op.id != id {
        assert Of(s.events, id) + [] == Of(s.events, id);
      } else if op.kind.Create? {
        assert |Of(Apply(s, op).events, id)| == 1;
      } else {
        GrowsAgreed(s.rows[id], Of(s.events, id), op);
      }
    }
  }

  /**
    In every run, row and timeline agree: the last entry carries the row's
    status, and started_at is set exactly when a later entry says so.
   */
  lemma {:induction false} ReachableConsistent(s: State, ops: seq<Op>, id: Id)
    requires Consistent(s, id)
    ensures Consistent(Exec(s, ops), id)
    decreases |ops|
  {
    if ops != [] {
      StepConsistent(s, ops[0], id);
      ReachableConsistent(Apply(s, ops[0]), ops[1..], id);
    }
  }

  /**
    A terminal row without a finish time exists if and only if the deployment
    was created in a terminal status and never touched since.
   */
  lemma UnfinishedExactly(ops: seq<Op>, id: Id)
    ensures var s := Exec(EMPTY, ops);
            id in s.rows ==> (Terminal(s.rows[id].status) && s.rows[id].finishedAt == None
                              <==> |Of(s.events, id)| == 1 && Terminal(Of(s.events, id)[0].status))
  {
    ReachableConsistent(EMPTY, ops, id);
  }

  /** Once written, started_at never changes; rows are never lost. */
  lemma {:induction false} StartedOnce(s: State, ops: seq<Op>, id: Id)
    requires id in s.rows && s.rows[id].startedAt.Some?
    ensures id in Exec(s, ops).rows && Exec(s, ops).rows[id].startedAt == s.rows[id].startedAt
    decreases |ops|
  {
    if ops != [] {
      StartedOnce(Apply(s, ops[0]), ops[1..], id);
    }
  }

  /** Cancelled is left by exactly two kinds of operation, the unguarded ones. */
  lemma CancelledLeftExactly(s: State, op: Op, id: Id)
    requires id in s.rows && s.rows[id].status == Cancelled
    ensures var after := Apply(s, op).rows[id];
            after.status != Cancelled <==>
              op.id == id && op.org == s.rows[id].org && (op.kind.MarkRolledBack? || (op.kind.UpdateStatus? && op.kind.to != Cancelled))
    ensures Apply(s, op).rows[id].status == Cancelled ==>
              Apply(s, op) == s || op.id != id || op.kind.UpdateStatus?
  {}

  /** A failed deployment is revived by exactly those two as well: completion is refused, failing again stays failed. */
  lemma FailedLeftExactly(s: State, op: Op, id: Id)
    requires id in s.rows && s.rows[id].status == Failed
    ensures Apply(s, op).rows[id].status != Failed <==>
              op.id == id && op.org == s.rows[id].org && (op.kind.MarkRolledBack? || (op.kind.UpdateStatus? && op.kind.to != Failed))
  {}

  /** Operations that can make a deployment ready again. */
  predicate MakesReady(kind: Kind) {
    kind.BuildComplete? || (kind.UpdateStatus? && (kind.to.Built? || kind.to.RollingBack?))
  }

  /** The deployment exists and is past the statuses a deploy waits for. */
  predicate Spent(s: State, id: Id) {
    id in s.rows && !s.rows[id].status.Built? && !s.rows[id].status.RollingBack?
  }

  /** A deployment that left the ready statuses comes back only by a completed build or an explicit status update. */
  lemma {:induction false} StaysSpent(s: State, ops: seq<Op>, id: Id)
    requires Spent(s, id) && forall op :: op in ops ==> op.id != id || !MakesReady(op.kind)
    ensures Spent(Exec(s, ops), id) && !Ready(Exec(s, ops).rows[id])
    decreases |ops|
  {
    if ops != [] {
      StaysSpent(Apply(s, ops[0]), ops[1..], id);
    }
  }

  // -------------------------------------------------------------- the listing

  predicate Sorted(es: seq<Entry>) { forall i, j :: 0 <= i < j < |es| ==> es[i].at <= es[j].at }

  /** What ListEvents may return: the entries in order of their time, equal times in any order. */
  ghost predicate ListsAs(events: seq<Entry>, id: Id, listed: seq<Entry>) {
    Sorted(listed) && multiset(listed) == multiset(Of(events, id))
  }

  predicate Rising(es: seq<Entry>) { forall i, j :: 0 <= i < j < |es| ==> es[i].at < es[j].at }

  lemma SameLast(a: seq<Entry>, b: seq<Entry>)
    requires Sorted(a) && Rising(b) && multiset(a) == multiset(b) && |a| == |b| > 0
    ensures a[|a| - 1] == b[|b| - 1]
  {
    var n := |b| - 1;
    assert b[n] in multiset(a) && a[n] in multiset(b);
    var i :| 0 <= i < |a| && a[i] == b[n];
    var j :| 0 <= j < |b| && b[j] == a[n];
    assert j == n;
  }

  lemma DropLast(a: seq<Entry>)
    requires a != []
    ensures multiset(a) == multiset(a[..|a| - 1]) + multiset{a[|a| - 1]}
  {
    assert a == a[..|a| - 1] + [a[|a| - 1]];
  }

  lemma Cancel(a: multiset<Entry>, b: multiset<Entry>, e: Entry)
    requires a + multiset{e} == b + multiset{e}
    ensures a == b
  {
    forall x ensures a[x] == b[x] {
      assert (a + multiset{e})[x] == (b + multiset{e})[x];
    }
  }

  lemma SameSize(a: seq<Entry>, b: seq<Entry>)
    requires multiset(a) == multiset(b)
    ensures |a| == |b|
  {
    assert |multiset(a)| == |multiset(b)|;
  }

  lemma {:induction false} OneSorting(a: seq<Entry>, b: seq<Entry>)
    requires Sorted(a) && Rising(b) && multiset(a) == multiset(b)
    ensures a == b
    decreases |b|
  {
    SameSize(a, b);
    if b != [] {
      var n := |b| - 1;
      SameLast(a, b);
      DropLast(a);
      DropLast(b);
      Cancel(multiset(a[..n]), multiset(b[..n]), a[n]);
      OneSorting(a[..n], b[..n]);
      assert a == a[..n] + [a[n]] && b == b[..n] + [b[n]];
    }
  }

  /** Inserts before the first later entry. */
  function Placed(e: Entry, es: seq<Entry>): (r: seq<Entry>)
    requires Sorted(es)
    ensures Sorted(r) && multiset(r) == multiset(es) + multiset{e}
    ensures r != [] && (r[0] == e || (es != [] && r[0] == es[0]))
  {
    if es == [] then [e]
    else if e.at <= es[0].at then
      AheadOf(e, es);
      [e] + es
    else
      assert es == [es[0]] + es[1..];
      var rest := Placed(e, es[1..]);
      AheadOf(es[0], rest);
      [es[0]] + rest
  }

  lemma AheadOf(e: Entry, es: seq<Entry>)
    requires Sorted(es) && (es == [] || e.at <= es[0].at)
    ensures Sorted([e] + es)
  {}

  function Sorting(es: seq<Entry>): (r: seq<Entry>)
    ensures Sorted(r) && multiset(r) == multiset(es)
  {
    if es == [] then []
    else
      assert es == [es[0]] + es[1..];
      Placed(es[0], Sorting(es[1..]))
  }

  /** No entry is later. */
  ghost predicate Latest(es: seq<Entry>, e: Entry) { e in es && forall f :: f in es ==> f.at <= e.at }

  lemma SameMembers(a: seq<Entry>, b: seq<Entry>, e: Entry)
    requires multiset(a) == multiset(b)
    ensures e in a <==> e in b
  {
    assert e in a <==> e in multiset(a);
    assert e in b <==> e in multiset(b);
  }

  /** Each latest entry ends some listing. */
  lemma EndsSomeListing(es: seq<Entry>, e: Entry) returns (listed: seq<Entry>)
    requires Latest(es, e)
    ensures Sorted(listed) && multiset(listed) == multiset(es)
    ensures listed != [] && listed[|listed| - 1] == e
  {
    var i :| 0 <= i < |es| && es[i] == e;
    var others := es[..i] + es[i + 1..];
    assert es == es[..i] + [e] + es[i + 1..];
    var sorted := Sorting(others);
    forall f | f in sorted ensures f.at <= e.at {
      SameMembers(sorted, others, f);
    }
    listed := sorted + [e];
  }

  /** And only latest entries end listings. */
  lemma EndIsLatest(es: seq<Entry>, listed: seq<Entry>)
    requires Sorted(listed) && multiset(listed) == multiset(es) && listed != []
    ensures Latest(es, listed[|listed| - 1])
  {
    var last := listed[|listed| - 1];
    SameMembers(listed, es, last);
    forall f | f in es ensures f.at <= last.at {
      SameMembers(listed, es, f);
      var i :| 0 <= i < |listed| && listed[i] == f;
    }
  }

  ghost predicate EndsWith(listed: seq<Entry>, status: Status) { listed != [] && listed[|listed| - 1].status == status }

  /**
    ListEvents is bound to end with the row's status if and only if every entry
    with the latest time has that status: ties and disorder elsewhere do no harm.
   */
  lemma ListedLastExactly(ops: seq<Op>, id: Id)
    requires id in Exec(EMPTY, ops).rows
    ensures var s := Exec(EMPTY, ops);
            (forall listed :: ListsAs(s.events, id, listed) ==> EndsWith(listed, s.rows[id].status))
            <==> forall e :: Latest(Of(s.events, id), e) ==> e.status == s.rows[id].status
  {
    var s := Exec(EMPTY, ops);
    var es, status := Of(s.events, id), s.rows[id].status;
    ReachableConsistent(EMPTY, ops, id);
    hide Exec, Of, Sorted, Latest;
    if forall e :: Latest(es, e) ==> e.status == status {
      forall listed | ListsAs(s.events, id, listed) ensures EndsWith(listed, status) {
        SameSize(listed, es);
        EndIsLatest(es, listed);
      }
    }
    if forall listed :: ListsAs(s.events, id, listed) ==> EndsWith(listed, status) {
      forall e | Latest(es, e) ensures e.status == status {
        var listed := EndsSomeListing(es, e);
        assert ListsAs(s.events, id, listed);
      }
    }
  }

  /** In particular, when transactions start in the order they commit, the listing is the commit order, so it ends with the row's status. */
  lemma ListedInOrder(ops: seq<Op>, id: Id, listed: seq<Entry>)
    requires id in Exec(EMPTY, ops).rows && ListsAs(Exec(EMPTY, ops).events, id, listed)
    requires Rising(Of(Exec(EMPTY, ops).events, id))
    ensures listed == Of(Exec(EMPTY, ops).events, id)
    ensures listed != [] && listed[|listed| - 1].status == Exec(EMPTY, ops).rows[id].status
  {
    ReachableConsistent(EMPTY, ops, id);
    OneSorting(listed, Of(Exec(EMPTY, ops).events, id));
  }

  /** A transaction that started earlier and committed later leaves a listing that ends with a status the row no longer has. */
  lemma ListedOutOfOrder() returns (ops: seq<Op>, listed: seq<Entry>)
    ensures "d" in Exec(EMPTY, ops).rows && ListsAs(Exec(EMPTY, ops).events, "d", listed)
    ensures listed != [] && listed[|listed| - 1].status != Exec(EMPTY, ops).rows["d"].status
  {
    var a := Op("o", "d", Kind.Create(None, "", "", map[]), 0, 0);
    var b := Op("o", "d", Kind.UpdateStatus(Deploying, "", ""), 2, 2);
    var c := Op("o", "d", Kind.UpdateStatus(Cancelled, "", ""), 3, 1);
    ops, listed := DisorderedRun(a, b, c);
  }

  lemma DisorderedRun(a: Op, b: Op, c: Op) returns (ops: seq<Op>, listed: seq<Entry>)
    requires a.kind.Create? && b.kind.UpdateStatus? && c.kind.UpdateStatus? && b.kind.to != c.kind.to
    requires a.id == b.id == c.id && a.org == b.org == c.org && a.txStart <= c.txStart <= b.txStart
    ensures a.id in Exec(EMPTY, ops).rows && ListsAs(Exec(EMPTY, ops).events, a.id, listed)
    ensures listed != [] && listed[|listed| - 1].status != Exec(EMPTY, ops).rows[a.id].status
  {
    ops := [a, b, c];
    listed := [EntryOf(a), EntryOf(c), EntryOf(b)];
    AppliedThree(a, b, c);
    ExecThree(EMPTY, a, b, c);
    OfThree(EntryOf(a), EntryOf(b), EntryOf(c), a.id);
    hide *;
    Swapped(Exec(EMPTY, ops).events, a.id, EntryOf(a), EntryOf(b), EntryOf(c));
    StatusOf(b);
  }

  lemma StatusOf(op: Op)
    requires op.kind.UpdateStatus?
    ensures EntryOf(op).status == op.kind.to
  {}

  lemma Swapped(events: seq<Entry>, id: Id, a: Entry, b: Entry, c: Entry)
    requires Of(events, id) == [a, b, c] && a.at <= c.at <= b.at
    ensures ListsAs(events, id, [a, c, b])
  {
    hide Of;
    Swap(a, b, c);
    var listed := [a, c, b];
    assert listed[0].at <= listed[1].at <= listed[2].at;
  }

  lemma Swap(a: Entry, b: Entry, c: Entry)
    ensures multiset([a, c, b]) == multiset([a, b, c])
  {}

  lemma AppliedThree(a: Op, b: Op, c: Op)
    requires a.kind.Create? && b.kind.UpdateStatus? && c.kind.UpdateStatus?
    requires a.id == b.id == c.id && a.org == b.org == c.org
    ensures var s := Apply(Apply(Apply(EMPTY, a), b), c);
            && s.events == [] + [EntryOf(a)] + [EntryOf(b)] + [EntryOf(c)]
            && a.id in s.rows && s.rows[a.id].status == c.kind.to
  {}

  lemma ExecThree(s: State, a: Op, b: Op, c: Op)
    ensures Exec(s, [a, b, c]) == Apply(Apply(Apply(s, a), b), c)
  {
    hide Apply;
    assert [c][1..] == [] && [b, c][1..] == [c] && [a, b, c][1..] == [b, c];
    assert Exec(Apply(Apply(s, a), b), [c]) == Apply(Apply(Apply(s, a), b), c);
    assert Exec(Apply(s, a), [b, c]) == Exec(Apply(Apply(s, a), b), [c]);
  }

  lemma OfThree(a: Entry, b: Entry, c: Entry, id: Id)
    requires a.deployment == b.deployment == c.deployment == id
    ensures Of([] + [a] + [b] + [c], id) == [a, b, c]
  {
    OfSnoc([], a, id);
    OfSnoc([] + [a], b, id);
    OfSnoc([] + [a] + [b], c, id);
  }

  /** A finished deployment can be reopened, keeping its finish time: a build completing after it went live. */
  lemma ReopenedKeepsFinish(s: State, op: Op, id: Id)
    requires id in s.rows && s.rows[id].finishedAt.Some? && Accepts(s, op) && op.id == id
    ensures var after := Apply(s, op).rows[id];
            after.finishedAt.Some? && (!Terminal(after.status) <==> op.kind.BuildComplete? || (op.kind.UpdateStatus? && !Terminal(op.kind.to)))
  {}
}
