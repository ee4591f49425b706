/** The durable job queue: every method is one atomic statement on the jobs table. */
module Jobs {
  import opened Common

  type JobId = string

  datatype Status = Pending | Running | Succeeded | Dead

  datatype Job = Job(
    queue: string, kind: string, payload: string, priority: int, status: Status,
    attempts: nat, maxAttempts: int, availableAt: int,
    leasedUntil: Option<int>, leasedBy: Option<string>,
    lastError: Option<string>, key: Option<string>, updatedAt: int)

  type Table = map<JobId, Job>

  /** Times are integer ticks; an unset RunAt is None, an unset key is "". */
  datatype EnqueueOptions = EnqueueOptions(priority: int, delay: int, runAt: Option<int>, attempts: int, key: string) {
    function MaxAttempts(): int { if attempts <= 0 then 25 else attempts }

    function AvailableAt(now: int): int {
      match runAt
      case Some(at) => at
      case None => if delay > 0 then now + delay else now
    }

    function Key(): Option<string> { if key == "" then None else Some(key) }
  }

  /** A non-positive duration is sent to the database as "0 seconds". */
  function Interval(d: int): int { if d <= 0 then 0 else d }

  function BatchLimit(limit: int): nat { if limit <= 0 then 1 else limit }

  // ---------------------------------------------------------------- one row

  function NewJob(queue: string, kind: string, payload: string, opts: EnqueueOptions, now: int, clientNow: int): Job {
    Job(queue, kind, payload, opts.priority, Pending, 0, opts.MaxAttempts(), opts.AvailableAt(clientNow),
        None, None, None, opts.Key(), now)
  }

  predicate Eligible(j: Job, queue: string, now: int) {
    j.queue == queue
    && ((j.status == Pending && j.availableAt <= now)
        || (j.status == Running && j.leasedUntil.Some? && j.leasedUntil.value < now))
  }

  function ClaimedJob(j: Job, worker: string, now: int, visibility: int): Job {
    j.(status := Running, attempts := j.attempts + 1, leasedUntil := Some(now + Interval(visibility)),
       leasedBy := Some(worker), updatedAt := now)
  }

  function CompletedJob(j: Job, now: int): Job {
    j.(status := Succeeded, leasedUntil := None, leasedBy := None, lastError := None, updatedAt := now)
  }

  function FailedJob(j: Job, cause: string, backoff: int, now: int): Job {
    var exhausted := j.attempts >= j.maxAttempts;
    j.(status := if exhausted then Dead else Pending,
       availableAt := if exhausted then j.availableAt else now + Interval(backoff),
       leasedUntil := None, leasedBy := None, lastError := Some(cause), updatedAt := now)
  }

  predicate HeldBy(j: Job, worker: string) {
    j.leasedBy == Some(worker) && j.status == Running
  }

  function ExtendedJob(j: Job, extend: int, now: int): Job {
    j.(leasedUntil := Some(now + Interval(extend)), updatedAt := now)
  }

  // -------------------------------------------------------------- the table

  predicate SameKey(j: Job, queue: string, key: Option<string>) {
    key.Some? && j.queue == queue && j.key == key
  }

  predicate HasKey(t: Table, queue: string, key: Option<string>) {
    exists id :: id in t && SameKey(t[id], queue, key)
  }

  function EnqueueRows(t: Table, id: JobId, job: Job): Table {
    if HasKey(t, job.queue, job.key) || id in t then t else t[id := job]
  }

  function ClaimRows(t: Table, picked: seq<JobId>, worker: string, now: int, visibility: int): Table {
    map id | id in t :: if id in picked then ClaimedJob(t[id], worker, now, visibility) else t[id]
  }

  function CompleteRows(t: Table, id: JobId, now: int): Table {
    if id in t then t[id := CompletedJob(t[id], now)] else t
  }

  function FailRows(t: Table, id: JobId, cause: string, backoff: int, now: int): Table {
    if id in t then t[id := FailedJob(t[id], cause, backoff, now)] else t
  }

  function HeartbeatRows(t: Table, id: JobId, worker: string, extend: int, now: int): Table {
    if id in t && HeldBy(t[id], worker) then t[id := ExtendedJob(t[id], extend, now)] else t
  }

  predicate Purgeable(j: Job, age: int, now: int) {
    j.status == Succeeded && j.updatedAt < now - Interval(age)
  }

  function PurgeRows(t: Table, age: int, now: int): Table {
    map id | id in t && !Purgeable(t[id], age, now) :: t[id]
  }

  /** Claim order: higher priority first, then the longest-waiting. */
  predicate Precedes(a: Job, b: Job) {
    a.priority > b.priority || (a.priority == b.priority && a.availableAt <= b.availableAt)
  }

  function Candidates(t: Table, queue: string, now: int, locked: set<JobId>): set<JobId> {
    set id | id in t && Eligible(t[id], queue, now) && id !in locked
  }

  /**
    What the claiming subselect may return when the rows in locked belong to
    other transactions: at most the limit, never fewer than it could, and no
    row left out precedes a row taken. RETURNING gives no order, so picked is
    any enumeration.
   */
  ghost predicate ValidPick(t: Table, queue: string, now: int, limit: int, locked: set<JobId>, picked: seq<JobId>) {
    var c := Candidates(t, queue, now, locked);
    && Distinct(picked)
    && (forall id :: id in picked ==> id in c)
    && |picked| <= BatchLimit(limit)
    && (|picked| < BatchLimit(limit) ==> forall id :: id in c ==> id in picked)
    && (forall p, id :: p in picked && id in c && id !in picked ==> Precedes(t[p], t[id]))
  }

  lemma First(t: Table, s: set<JobId>) returns (best: JobId)
    requires s != {} && s <= t.Keys
    ensures best in s && forall id :: id in s ==> Precedes(t[best], t[id])
  {
    best :| best in s;
    var rest := s - {best};
    if rest != {} {
      var other := First(t, rest);
      if !Precedes(t[best], t[other]) {
        best := other;
      }
    }
  }

  /** The claiming subselect always has an answer. */
  lemma {:induction false} PickExists(t: Table, queue: string, now: int, limit: int, locked: set<JobId>) returns (picked: seq<JobId>)
    ensures ValidPick(t, queue, now, limit, locked, picked)
  {
    picked := TakeFirst(t, Candidates(t, queue, now, locked), BatchLimit(limit));
  }

  lemma {:induction false} TakeFirst(t: Table, c: set<JobId>, n: nat) returns (picked: seq<JobId>)
    requires c <= t.Keys
    ensures Distinct(picked) && |picked| <= n && forall id :: id in picked ==> id in c
    ensures |picked| < n ==> forall id :: id in c ==> id in picked
    ensures forall p, id :: p in picked && id in c && id !in picked ==> Precedes(t[p], t[id])
    decreases n
  {
    if n == 0 || c == {} {
      picked := [];
    } else {
      var best := First(t, c);
      var rest := TakeFirst(t, c - {best}, n - 1);
      picked := [best] + rest;
    }
  }

  // ------------------------------------------------------- what a row keeps

  ghost predicate JobOk(j: Job) {
    && (j.status == Running <==> j.leasedUntil.Some?)
    && (j.leasedUntil.Some? <==> j.leasedBy.Some?)
    && (j.status == Pending ==> j.attempts < j.maxAttempts)
    && (j.status == Dead ==> j.attempts >= j.maxAttempts)
    && (j.status == Running ==> j.attempts >= 1)
    && j.maxAttempts >= 1
  }

  ghost predicate TableOk(t: Table) {
    && (forall id :: id in t ==> JobOk(t[id]))
    && (forall a, b :: a in t && b in t && a != b ==> !SameKey(t[a], t[b].queue, t[b].key))
  }

  lemma ClaimKeepsTable(t: Table, picked: seq<JobId>, worker: string, now: int, visibility: int)
    requires TableOk(t)
    ensures TableOk(ClaimRows(t, picked, worker, now, visibility))
  {}

  /** The queue as an object over the table; now and the fresh id come from outside. */
  class Queue {
    var rows: Table

    constructor ()
      ensures rows == map[] && TableOk(rows)
    {
      rows := map[];
    }

    method Enqueue(id: JobId, queue: string, kind: string, payload: string, opts: EnqueueOptions, now: int, clientNow: int)
      returns (r: Result<Job>)
      requires TableOk(rows)
      modifies this
      ensures TableOk(rows)
      ensures rows == EnqueueRows(old(rows), id, NewJob(queue, kind, payload, opts, now, clientNow))
      ensures r.Ok? && opts.key != "" ==> r.value.queue == queue && r.value.key == Some(opts.key) && exists i :: i in rows && rows[i] == r.value
      ensures HasKey(old(rows), queue, opts.Key()) ==> r.Ok? && rows == old(rows)
      ensures r.Ok? && !HasKey(old(rows), queue, opts.Key()) ==> id !in old(rows) && id in rows && r.value == rows[id]
      ensures r.Err? <==> !HasKey(old(rows), queue, opts.Key()) && id in old(rows)
    {
      var job := NewJob(queue, kind, payload, opts, now, clientNow);
      if i :| i in rows && SameKey(rows[i], queue, opts.Key()) {
        return Ok(rows[i]);
      }
      if id in rows {
        return Err(AlreadyExists);
      }
      rows := rows[id := job];
      r := Ok(rows[id]);
    }

    method Dequeue(queue: string, worker: string, limit: int, visibility: int, now: int, ghost locked: set<JobId>, picked: seq<JobId>)
      returns (claimed: seq<Job>)
      requires TableOk(rows) && ValidPick(rows, queue, now, limit, locked, picked)
      modifies this
      ensures TableOk(rows)
      ensures rows == ClaimRows(old(rows), picked, worker, now, visibility)
      ensures |claimed| == |picked| && forall i :: 0 <= i < |picked| ==> picked[i] in rows && claimed[i] == rows[picked[i]]
    {
      ClaimKeepsTable(rows, picked, worker, now, visibility);
      claimed := ClaimAll(picked, worker, visibility, now);
    }

    /** The update and its RETURNING rows, one picked row at a time. */
    method ClaimAll(picked: seq<JobId>, worker: string, visibility: int, now: int) returns (claimed: seq<Job>)
      requires Distinct(picked) && forall id :: id in picked ==> id in rows
      modifies this
      ensures rows == ClaimRows(old(rows), picked, worker, now, visibility)
      ensures |claimed| == |picked| && forall i :: 0 <= i < |picked| ==> picked[i] in rows && claimed[i] == rows[picked[i]]
    {
      claimed := [];
      for i := 0 to |picked|
        invariant rows.Keys == old(rows).Keys
        invariant forall k :: 0 <= k < i ==> rows[picked[k]] == ClaimedJob(old(rows)[picked[k]], worker, now, visibility)
        invariant forall id :: id in rows && id !in picked[..i] ==> rows[id] == old(rows)[id]
        invariant |claimed| == i && forall k :: 0 <= k < i ==> claimed[k] == rows[picked[k]]
      {
        var id := picked[i];
        assert picked[..i+1] == picked[..i] + [id];
        rows := rows[id := ClaimedJob(rows[id], worker, now, visibility)];
        claimed := claimed + [rows[id]];
      }
      assert picked[..|picked|] == picked;
    }

    method Complete(id: JobId, now: int) returns (r: Result<()>)
      requires TableOk(rows)
      modifies this
      ensures TableOk(rows)
      ensures rows == CompleteRows(old(rows), id, now) && (r == if id in old(rows) then Ok(()) else Err(NotFound))
    {
      if id !in rows {
        return Err(NotFound);
      }
      rows := rows[id := rows[id].(status := Succeeded, leasedUntil := None, leasedBy := None, lastError := None, updatedAt := now)];
      r := Ok(());
    }

    method Fail(id: JobId, cause: string, backoff: int, now: int) returns (r: Result<Status>)
      requires TableOk(rows)
      modifies this
      ensures TableOk(rows)
      ensures rows == FailRows(old(rows), id, cause, backoff, now)
      ensures r == if id in old(rows) then Ok(rows[id].status) else Err(NotFound)
    {
      if id !in rows {
        return Err(NotFound);
      }
      var j := rows[id].(leasedUntil := None, leasedBy := None, lastError := Some(cause), updatedAt := now);
      if j.attempts >= j.maxAttempts {
        j := j.(status := Dead);
      } else {
        j := j.(status := Pending, availableAt := now + Interval(backoff));
      }
      rows := rows[id := j];
      r := Ok(j.status);
    }

    method Heartbeat(id: JobId, worker: string, extend: int, now: int) returns (r: Result<()>)
      requires TableOk(rows)
      modifies this
      ensures TableOk(rows)
      ensures rows == HeartbeatRows(old(rows), id, worker, extend, now)
      ensures r == if id in old(rows) && HeldBy(old(rows)[id], worker) then Ok(()) else Err(Conflict)
    {
      if id !in rows || !HeldBy(rows[id], worker) {
        return Err(Conflict);
      }
      rows := rows[id := rows[id].(leasedUntil := Some(now + Interval(extend)), updatedAt := now)];
      r := Ok(());
    }

    method PurgeCompleted(age: int, now: int) returns (n: nat)
      requires TableOk(rows)
      modifies this
      ensures TableOk(rows)
      ensures rows == PurgeRows(old(rows), age, now) && n == |old(rows)| - |rows|
    {
      var before := rows;
      var gone := set id | id in rows && Purgeable(rows[id], age, now);
      rows := map id | id in rows && id !in gone :: rows[id];
      n := |gone|;
      assert rows.Keys == before.Keys - gone;
      assert |rows| == |rows.Keys| && |before| == |before.Keys|;
    }
  }

  // ------------------------------------------- runs with no discipline at all

  datatype State = State(rows: Table, now: int)

  datatype Op =
    | Tick(elapsed: nat)
    | Enqueue(id: JobId, queue: string, kind: string, payload: string, opts: EnqueueOptions, clientNow: int)
    | Dequeue(queue: string, worker: string, limit: int, visibility: int, locked: set<JobId>, picked: seq<JobId>)
    | Complete(id: JobId)
    | Fail(id: JobId, cause: string, backoff: int)
    | Heartbeat(id: JobId, worker: string, extend: int)
    | Purge(age: int)

  ghost predicate Enabled(s: State, op: Op) {
    op.Dequeue? ==> ValidPick(s.rows, op.queue, s.now, op.limit, op.locked, op.picked)
  }

  ghost function Apply(s: State, op: Op): State {
    match op
    case Tick(elapsed) => s.(now := s.now + elapsed)
    case Enqueue(id, queue, kind, payload, opts, clientNow) =>
      s.(rows := EnqueueRows(s.rows, id, NewJob(queue, kind, payload, opts, s.now, clientNow)))
    case Dequeue(queue, worker, limit, visibility, locked, picked) =>
      s.(rows := ClaimRows(s.rows, picked, worker, s.now, visibility))
    case Complete(id) => s.(rows := CompleteRows(s.rows, id, s.now))
    case Fail(id, cause, backoff) => s.(rows := FailRows(s.rows, id, cause, backoff, s.now))
    case Heartbeat(id, worker, extend) => s.(rows := HeartbeatRows(s.rows, id, worker, extend, s.now))
    case Purge(age) => s.(rows := PurgeRows(s.rows, age, s.now))
  }

  ghost predicate ValidRun(s: State, ops: seq<Op>)
    decreases |ops|
  {
    ops == [] || (Enabled(s, ops[0]) && ValidRun(Apply(s, ops[0]), ops[1..]))
  }

  ghost function Exec(s: State, ops: seq<Op>): State
    decreases |ops|
  {
    if ops == [] then s else Exec(Apply(s, ops[0]), ops[1..])
  }

  lemma StepKeepsTable(s: State, op: Op)
    requires TableOk(s.rows) && Enabled(s, op)
    ensures TableOk(Apply(s, op).rows)
  {}

  /** Whatever workers do, every reachable table is well formed. */
  lemma {:induction false} ReachableTable(s: State, ops: seq<Op>)
    requires TableOk(s.rows) && ValidRun(s, ops)
    ensures TableOk(Exec(s, ops).rows)
    decreases |ops|
  {
    if ops != [] {
      StepKeepsTable(s, ops[0]);
      ReachableTable(Apply(s, ops[0]), ops[1..]);
    }
  }

  // ------------------------------------------------- how often a job is claimed

  /** Attempts a row still has. */
  ghost function Budget(t: Table, id: JobId): nat {
    if id in t && t[id].attempts < t[id].maxAttempts then t[id].maxAttempts - t[id].attempts else 0
  }

  /** 1 when op claims id out of Pending (not by reclaiming an expired lease). */
  ghost function FirstHandClaim(s: State, op: Op, id: JobId): nat {
    if op.Dequeue? && id in op.picked && id in s.rows && s.rows[id].status == Pending then 1 else 0
  }

  /** Attempts that op adds by inserting id. */
  ghost function Granted(s: State, op: Op, id: JobId): nat {
    if op.Enqueue? && op.id == id && id !in s.rows && id in Apply(s, op).rows && op.opts.MaxAttempts() >= 0
    then op.opts.MaxAttempts() else 0
  }

  ghost function ClaimsIn(s: State, ops: seq<Op>, id: JobId): nat
    decreases |ops|
  {
    if ops == [] then 0 else FirstHandClaim(s, ops[0], id) + ClaimsIn(Apply(s, ops[0]), ops[1..], id)
  }

  ghost function GrantedIn(s: State, ops: seq<Op>, id: JobId): nat
    decreases |ops|
  {
    if ops == [] then 0 else Granted(s, ops[0], id) + GrantedIn(Apply(s, ops[0]), ops[1..], id)
  }

  lemma StepSpendsBudget(s: State, op: Op, id: JobId)
    requires TableOk(s.rows) && Enabled(s, op)
    ensures FirstHandClaim(s, op, id) + Budget(Apply(s, op).rows, id) <= Budget(s.rows, id) + Granted(s, op, id)
  {}

  /** Claims from Pending are paid for by attempts; reclaims are not counted and never add any. */
  lemma {:induction false} ClaimsBounded(s: State, ops: seq<Op>, id: JobId)
    requires TableOk(s.rows) && ValidRun(s, ops)
    ensures ClaimsIn(s, ops, id) + Budget(Exec(s, ops).rows, id) <= Budget(s.rows, id) + GrantedIn(s, ops, id)
    decreases |ops|
  {
    if ops != [] {
      StepKeepsTable(s, ops[0]);
      StepSpendsBudget(s, ops[0], id);
      ClaimsBounded(Apply(s, ops[0]), ops[1..], id);
    }
  }

  ghost function TotalClaims(s: State, ops: seq<Op>, ids: seq<JobId>): nat {
    if ids == [] then 0 else ClaimsIn(s, ops, ids[0]) + TotalClaims(s, ops, ids[1..])
  }

  ghost function TotalBudget(t: Table, ids: seq<JobId>): nat {
    if ids == [] then 0 else Budget(t, ids[0]) + TotalBudget(t, ids[1..])
  }

  ghost function TotalGranted(s: State, ops: seq<Op>, ids: seq<JobId>): nat {
    if ids == [] then 0 else GrantedIn(s, ops, ids[0]) + TotalGranted(s, ops, ids[1..])
  }

  /** The sum of max_attempts - attempts over any jobs bounds all their first-hand claims together. */
  lemma {:induction false} TotalClaimsBounded(s: State, ops: seq<Op>, ids: seq<JobId>)
    requires TableOk(s.rows) && ValidRun(s, ops)
    ensures TotalClaims(s, ops, ids) + TotalBudget(Exec(s, ops).rows, ids) <= TotalBudget(s.rows, ids) + TotalGranted(s, ops, ids)
  {
    if ids != [] {
      ClaimsBounded(s, ops, ids[0]);
      TotalClaimsBounded(s, ops, ids[1..]);
    }
  }

  /** As long as nothing is purged, a keyed row stays and every later enqueue under its key finds it. */
  lemma {:induction false} KeyDedupes(s: State, ops: seq<Op>, id: JobId)
    requires TableOk(s.rows) && ValidRun(s, ops)
    requires id in s.rows && s.rows[id].key.Some?
    requires forall i :: 0 <= i < |ops| ==> !ops[i].Purge?
    ensures id in Exec(s, ops).rows && SameKey(Exec(s, ops).rows[id], s.rows[id].queue, s.rows[id].key)
    ensures forall other, job: Job :: SameKey(job, s.rows[id].queue, s.rows[id].key) ==>
      EnqueueRows(Exec(s, ops).rows, other, job) == Exec(s, ops).rows
    decreases |ops|
  {
    if ops != [] {
      StepKeepsTable(s, ops[0]);
      hide TableOk, ValidPick, Eligible;
      KeyDedupes(Apply(s, ops[0]), ops[1..], id);
    }
  }
}
