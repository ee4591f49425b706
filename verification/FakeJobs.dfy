/** The in-memory job queue for tests, and how far it behaves like the durable one. */
module FakeJobs {
  import opened Common
  import opened Jobs
  import T = JobHistory

  /** Durations are used as given, negative ones included. */
  function Claimed(j: Job, worker: string, now: int, visibility: int): Job {
    j.(status := Running, attempts := j.attempts + 1, leasedUntil := Some(now + visibility), leasedBy := Some(worker), updatedAt := now)
  }

  /** The last error outlives completion. */
  function Completed(j: Job, now: int): Job {
    j.(status := Succeeded, leasedUntil := None, leasedBy := None, updatedAt := now)
  }

  function Failed(j: Job, cause: string, backoff: int, now: int): Job {
    var k := j.(lastError := Some(cause), leasedUntil := None, leasedBy := None, updatedAt := now);
    if j.attempts >= j.maxAttempts then k.(status := Dead) else k.(status := Pending, availableAt := now + backoff)
  }

  /** The eligible jobs in insertion order. */
  function Line(t: Table, order: seq<JobId>, queue: string, now: int): (ids: seq<JobId>)
    ensures forall id :: id in ids <==> id in order && id in t && Eligible(t[id], queue, now)
  {
    if order == [] then []
    else
      var n := |order| - 1;
      Line(t, order[..n], queue, now) + if order[n] in t && Eligible(t[order[n]], queue, now) then [order[n]] else []
  }

  function Head(ids: seq<JobId>, limit: int): (r: seq<JobId>)
    ensures r <= ids && |r| == if limit <= 0 then 0 else if |ids| <= limit then |ids| else limit
  {
    if limit <= 0 then [] else if |ids| <= limit then ids else ids[..limit]
  }

  /** What a dequeue takes: the head of the line. */
  function Pick(t: Table, order: seq<JobId>, queue: string, now: int, limit: int): seq<JobId> {
    Head(Line(t, order, queue, now), limit)
  }

  function ClaimAll(t: Table, picked: seq<JobId>, worker: string, now: int, visibility: int): Table {
    map id | id in t :: if id in picked then Claimed(t[id], worker, now, visibility) else t[id]
  }

  function ClaimedOf(t: Table, picked: seq<JobId>, worker: string, now: int, visibility: int): (js: seq<Job>)
    requires forall id :: id in picked ==> id in t
    ensures |js| == |picked| && forall i :: 0 <= i < |js| ==> js[i] == Claimed(t[picked[i]], worker, now, visibility)
  {
    if picked == [] then []
    else
      var n := |picked| - 1;
      ClaimedOf(t, picked[..n], worker, now, visibility) + [Claimed(t[picked[n]], worker, now, visibility)]
  }

  ghost predicate InOrder(js: seq<Job>) { forall i, j :: 0 <= i < j < |js| ==> Precedes(js[i], js[j]) }

  lemma Ahead(a: Job, js: seq<Job>)
    requires InOrder(js) && (js == [] || Precedes(a, js[0]))
    ensures InOrder([a] + js)
  {}

  function Insert(x: Job, js: seq<Job>): (r: seq<Job>)
    requires InOrder(js)
    ensures InOrder(r) && r != [] && (r[0] == x || (js != [] && r[0] == js[0]))
    ensures multiset(r) == multiset{x} + multiset(js)
  {
    if js == [] then [x]
    else if Precedes(x, js[0]) then
      Ahead(x, js);
      [x] + js
    else
      assert js == [js[0]] + js[1..];
      var rest := Insert(x, js[1..]);
      Ahead(js[0], rest);
      [js[0]] + rest
  }

  /** Equal jobs may come out in any order; one of the orders. */
  method Sort(js: seq<Job>) returns (r: seq<Job>)
    ensures InOrder(r) && multiset(r) == multiset(js)
  {
    r := [];
    for i := 0 to |js|
      invariant InOrder(r) && multiset(r) == multiset(js[..i])
    {
      assert js[..i + 1] == js[..i] + [js[i]];
      r := Insert(js[i], r);
    }
    assert js[..|js|] == js;
  }

  ghost predicate Listed(t: Table, order: seq<JobId>) {
    Distinct(order) && forall id :: id in order <==> id in t
  }

  class FakeJobQueue {
    var jobs: Table
    var order: seq<JobId>

    ghost predicate Valid()
      reads this
    {
      Listed(jobs, order) && TableOk(jobs)
    }

    constructor ()
      ensures Valid() && jobs == map[] && order == []
    {
      jobs, order := map[], [];
    }

    /** id: the fresh identifier drawn for the job. */
    method Enqueue(id: JobId, queue: string, kind: string, payload: string, opts: EnqueueOptions, now: int) returns (j: Job)
      requires Valid() && id !in jobs
      modifies this
      ensures Valid()
      ensures jobs == EnqueueRows(old(jobs), id, NewJob(queue, kind, payload, opts, now, now))
      ensures order == if HasKey(old(jobs), queue, opts.Key()) then old(order) else old(order) + [id]
      ensures HasKey(old(jobs), queue, opts.Key()) ==> SameKey(j, queue, opts.Key()) && exists i :: i in jobs && jobs[i] == j
      ensures !HasKey(old(jobs), queue, opts.Key()) ==> id in jobs && jobs[id] == j
    {
      if opts.key != "" {
        if i :| i in jobs && SameKey(jobs[i], queue, opts.Key()) {
          return jobs[i];
        }
      }
      j := NewJob(queue, kind, payload, opts, now, now);
      jobs := jobs[id := j];
      order := order + [id];
    }

    method Dequeue(queue: string, worker: string, limit: int, visibility: int, now: int) returns (out: seq<Job>)
      requires Valid()
      modifies this
      ensures Valid() && order == old(order)
      ensures var picked := Pick(old(jobs), order, queue, now, limit);
              && jobs == ClaimAll(old(jobs), picked, worker, now, visibility)
              && multiset(out) == multiset(ClaimedOf(old(jobs), picked, worker, now, visibility))
      ensures forall i, j :: 0 <= i < j < |out| ==>
                out[i].priority > out[j].priority || (out[i].priority == out[j].priority && out[i].availableAt <= out[j].availableAt)
    {
      var picked: seq<JobId>;
      picked, out := Take(queue, worker, limit, visibility, now);
      ClaimKeeps(old(jobs), order, picked, worker, now, visibility);
      out := Sort(out);
    }

    /** The loop over the insertion order. */
    method Take(queue: string, worker: string, limit: int, visibility: int, now: int) returns (picked: seq<JobId>, out: seq<Job>)
      requires Listed(jobs, order)
      modifies this`jobs
      ensures picked == Pick(old(jobs), order, queue, now, limit)
      ensures jobs == ClaimAll(old(jobs), picked, worker, now, visibility)
      ensures out == ClaimedOf(old(jobs), picked, worker, now, visibility)
    {
      hide Eligible, Claimed, ClaimAll, ClaimedOf, Line, Head;
      ghost var before := jobs;
      picked, out := [], [];
      Nothing(before, queue, worker, now, visibility);
      for i := 0 to |order|
        invariant picked == Line(before, order[..i], queue, now) && (|picked| <= limit || picked == [])
        invariant jobs == ClaimAll(before, picked, worker, now, visibility)
        invariant out == ClaimedOf(before, picked, worker, now, visibility)
      {
        if |out| >= limit {
          PickFull(before, order, i, queue, now, limit);
          return;
        }
        LineGrows(before, order, i, queue, now);
        Unclaimed(before, picked, order, i, worker, now, visibility);
        var id := order[i];
        var j := jobs[id];
        if Eligible(j, queue, now) {
          ClaimOne(before, picked, id, worker, now, visibility);
          picked := picked + [id];
          jobs := jobs[id := Claimed(j, worker, now, visibility)];
          out := out + [jobs[id]];
        }
      }
      PickAll(before, order, queue, now, limit);
    }

    method Complete(id: JobId, now: int) returns (r: Result<()>)
      requires Valid()
      modifies this`jobs
      ensures Valid()
      ensures jobs == if id in old(jobs) then old(jobs)[id := Completed(old(jobs)[id], now)] else old(jobs)
      ensures r == if id in old(jobs) then Ok(()) else Err(NotFound)
    {
      if id !in jobs {
        return Err(NotFound);
      }
      jobs := jobs[id := jobs[id].(status := Succeeded, leasedUntil := None, leasedBy := None, updatedAt := now)];
      r := Ok(());
    }

    method Fail(id: JobId, cause: string, backoff: int, now: int) returns (r: Result<Status>)
      requires Valid()
      modifies this`jobs
      ensures Valid()
      ensures jobs == if id in old(jobs) then old(jobs)[id := Failed(old(jobs)[id], cause, backoff, now)] else old(jobs)
      ensures r == if id in old(jobs) then Ok(jobs[id].status) else Err(NotFound)
    {
      hide TableOk, Listed;
      if id !in jobs {
        return Err(NotFound);
      }
      var j := jobs[id].(lastError := Some(cause), leasedUntil := None, leasedBy := None, updatedAt := now);
      if j.attempts >= j.maxAttempts {
        j := j.(status := Dead);
      } else {
        j := j.(status := Pending, availableAt := now + backoff);
      }
      FailKeeps(jobs, order, id, cause, backoff, now);
      jobs := jobs[id := j];
      r := Ok(j.status);
    }
  }

  lemma FailKeeps(t: Table, order: seq<JobId>, id: JobId, cause: string, backoff: int, now: int)
    requires Listed(t, order) && TableOk(t) && id in t
    ensures Listed(t[id := Failed(t[id], cause, backoff, now)], order) && TableOk(t[id := Failed(t[id], cause, backoff, now)])
  {}

  // ------------------------------------------------------------ the loop's steps

  lemma Nothing(t: Table, queue: string, worker: string, now: int, visibility: int)
    ensures Line(t, [], queue, now) == [] && ClaimAll(t, [], worker, now, visibility) == t
    ensures ClaimedOf(t, [], worker, now, visibility) == []
  {}

  lemma LineGrows(t: Table, order: seq<JobId>, i: nat, queue: string, now: int)
    requires i < |order|
    ensures Line(t, order[..i + 1], queue, now)
         == Line(t, order[..i], queue, now) + if order[i] in t && Eligible(t[order[i]], queue, now) then [order[i]] else []
  {
    hide Eligible;
    assert order[..i + 1][..i] == order[..i];
  }

  lemma {:induction false} LinePrefix(t: Table, order: seq<JobId>, i: nat, queue: string, now: int)
    requires i <= |order|
    ensures Line(t, order[..i], queue, now) <= Line(t, order, queue, now)
    decreases |order| - i
  {
    hide Eligible, Line;
    if i == |order| {
      assert order[..i] == order;
    } else {
      LineGrows(t, order, i, queue, now);
      LinePrefix(t, order, i + 1, queue, now);
    }
  }

  lemma PickFull(t: Table, order: seq<JobId>, i: nat, queue: string, now: int, limit: int)
    requires i <= |order|
    requires var line := Line(t, order[..i], queue, now); |line| >= limit && (|line| <= limit || line == [])
    ensures Pick(t, order, queue, now, limit) == Line(t, order[..i], queue, now)
  {
    hide Eligible, Line;
    LinePrefix(t, order, i, queue, now);
  }

  lemma PickAll(t: Table, order: seq<JobId>, queue: string, now: int, limit: int)
    requires var line := Line(t, order[..|order|], queue, now); |line| <= limit || line == []
    ensures Pick(t, order, queue, now, limit) == Line(t, order[..|order|], queue, now)
  {
    assert order[..|order|] == order;
  }

  /** A job not reached yet is as it was. */
  lemma Unclaimed(t: Table, picked: seq<JobId>, order: seq<JobId>, i: nat, worker: string, now: int, visibility: int)
    requires Listed(t, order) && i < |order| && forall id :: id in picked ==> id in order[..i]
    ensures order[i] in t && order[i] !in picked && order[i] in ClaimAll(t, picked, worker, now, visibility)
    ensures ClaimAll(t, picked, worker, now, visibility)[order[i]] == t[order[i]]
  {
    assert order[i] !in order[..i];
    assert order[i] in order;
  }

  lemma ClaimOne(t: Table, picked: seq<JobId>, id: JobId, worker: string, now: int, visibility: int)
    requires id in t && id !in picked && forall p :: p in picked ==> p in t
    ensures ClaimAll(t, picked + [id], worker, now, visibility)
         == ClaimAll(t, picked, worker, now, visibility)[id := Claimed(t[id], worker, now, visibility)]
    ensures ClaimedOf(t, picked + [id], worker, now, visibility)
         == ClaimedOf(t, picked, worker, now, visibility) + [Claimed(t[id], worker, now, visibility)]
  {
    hide Claimed;
    assert (picked + [id])[..|picked|] == picked;
  }

  lemma ClaimKeeps(t: Table, order: seq<JobId>, picked: seq<JobId>, worker: string, now: int, visibility: int)
    requires Listed(t, order) && TableOk(t)
    ensures Listed(ClaimAll(t, picked, worker, now, visibility), order) && TableOk(ClaimAll(t, picked, worker, now, visibility))
  {}

  // ------------------------------------------------- against the durable queue

  /** Taking the head of the line takes no job that a later one should precede. */
  ghost predicate HeadFirst(t: Table, order: seq<JobId>, queue: string, now: int, limit: int) {
    var line, picked := Line(t, order, queue, now), Pick(t, order, queue, now, limit);
    forall p, id :: p in picked && id in line && id !in picked ==> Precedes(t[p], t[id])
  }

  lemma {:induction false} LineDistinct(t: Table, order: seq<JobId>, queue: string, now: int)
    requires Distinct(order)
    ensures Distinct(Line(t, order, queue, now))
  {
    if order != [] {
      LineDistinct(t, order[..|order| - 1], queue, now);
      assert order[|order| - 1] !in order[..|order| - 1];
    }
  }

  /**
    The fake's choice is one the durable queue could make if and only if the
    limit is positive (or nothing is eligible) and insertion order happens to
    put the right jobs first.
   */
  lemma PickValidExactly(t: Table, order: seq<JobId>, queue: string, now: int, limit: int)
    requires Listed(t, order)
    ensures ValidPick(t, queue, now, limit, {}, Pick(t, order, queue, now, limit))
       <==> HeadFirst(t, order, queue, now, limit) && (limit >= 1 || Line(t, order, queue, now) == [])
  {
    hide Eligible;
    var line, picked, c := Line(t, order, queue, now), Pick(t, order, queue, now, limit), Candidates(t, queue, now, {});
    LineDistinct(t, order, queue, now);
    assert forall id :: id in c <==> id in line;
    if limit <= 0 && line != [] {
      assert line[0] in c && line[0] !in picked && |picked| < BatchLimit(limit);
    }
  }

  /** With room for every eligible job the choice is always one the durable queue makes. */
  lemma RoomForAll(t: Table, order: seq<JobId>, queue: string, now: int, limit: int)
    requires Listed(t, order) && limit >= 1 && |Line(t, order, queue, now)| <= limit
    ensures ValidPick(t, queue, now, limit, {}, Pick(t, order, queue, now, limit))
  {
    PickValidExactly(t, order, queue, now, limit);
  }

  /** Without it the fake may take the less urgent of two jobs. */
  lemma TakesLessUrgent(low: Job, high: Job, queue: string, now: int)
    requires Eligible(low, queue, now) && Eligible(high, queue, now) && low.priority < high.priority
    ensures var t := map["a" := low, "b" := high];
            Listed(t, ["a", "b"]) && !ValidPick(t, queue, now, 1, {}, Pick(t, ["a", "b"], queue, now, 1))
  {
    var t, order: seq<JobId> := map["a" := low, "b" := high], ["a", "b"];
    hide Eligible;
    assert order[..1] == ["a"] && order[..1][..0] == [];
    assert Line(t, order[..1], queue, now) == ["a"];
    assert Line(t, order, queue, now) == ["a", "b"];
    assert Pick(t, order, queue, now, 1) == ["a"];
    assert "b" in Line(t, order, queue, now);
    PickValidExactly(t, order, queue, now, 1);
  }

  // --------------------------------------------------------- whole runs, compared

  datatype Fake = Fake(jobs: Table, order: seq<JobId>, now: int)

  /** The fake's own step for an operation; it decides itself what a dequeue takes. */
  ghost function Step(f: Fake, op: Op): Fake {
    match op
    case Tick(elapsed) => f.(now := f.now + elapsed)
    case Enqueue(id, queue, kind, payload, opts, _) =>
      f.(jobs := EnqueueRows(f.jobs, id, NewJob(queue, kind, payload, opts, f.now, f.now)),
         order := if HasKey(f.jobs, queue, opts.Key()) then f.order else f.order + [id])
    case Dequeue(queue, worker, limit, visibility, _, _) =>
      f.(jobs := ClaimAll(f.jobs, Pick(f.jobs, f.order, queue, f.now, limit), worker, f.now, visibility))
    case Complete(id) => if id in f.jobs then f.(jobs := f.jobs[id := Completed(f.jobs[id], f.now)]) else f
    case Fail(id, cause, backoff) => if id in f.jobs then f.(jobs := f.jobs[id := Failed(f.jobs[id], cause, backoff, f.now)]) else f
    case _ => f
  }

  /** Operations the fake has, used so that both queues can agree: fresh ids, no negative durations, no unlucky order. */
  ghost predicate Tame(f: Fake, op: Op) {
    match op
    case Tick(_) => true
    case Enqueue(id, _, _, _, _, _) => id !in f.jobs
    case Dequeue(queue, _, limit, visibility, _, _) => limit >= 1 && visibility >= 0 && HeadFirst(f.jobs, f.order, queue, f.now, limit)
    case Complete(_) => true
    case Fail(_, _, backoff) => backoff >= 0
    case _ => false
  }

  /** The same operation on the durable queue, taking what the fake takes. */
  ghost function Translated(f: Fake, op: Op): Op {
    match op
    case Enqueue(_, _, _, _, _, _) => op.(clientNow := f.now)
    case Dequeue(queue, _, limit, _, _, _) => op.(locked := {}, picked := Pick(f.jobs, f.order, queue, f.now, limit))
    case _ => op
  }

  ghost predicate TameRun(f: Fake, ops: seq<Op>)
    decreases |ops|
  {
    ops == [] || (Tame(f, ops[0]) && TameRun(Step(f, ops[0]), ops[1..]))
  }

  ghost function Run(f: Fake, ops: seq<Op>): Fake
    decreases |ops|
  {
    if ops == [] then f else Run(Step(f, ops[0]), ops[1..])
  }

  ghost function TranslatedRun(f: Fake, ops: seq<Op>): seq<Op>
    decreases |ops|
  {
    if ops == [] then [] else [Translated(f, ops[0])] + TranslatedRun(Step(f, ops[0]), ops[1..])
  }

  /** Alike but for the last error. */
  ghost predicate Alike(a: Job, b: Job) { a.(lastError := None) == b.(lastError := None) }

  ghost predicate AlikeTables(a: Table, b: Table) {
    forall id :: (id in a <==> id in b) && (id in a ==> Alike(a[id], b[id]))
  }

  lemma AlikeJobs(a: Job, b: Job, queue: string, now: int, worker: string, d: int, cause: string)
    requires Alike(a, b)
    ensures Eligible(a, queue, now) == Eligible(b, queue, now)
    ensures forall key :: SameKey(a, queue, key) == SameKey(b, queue, key)
    ensures d >= 0 ==> Alike(Claimed(a, worker, now, d), ClaimedJob(b, worker, now, d))
    ensures Alike(Completed(a, now), CompletedJob(b, now))
    ensures d >= 0 ==> Alike(Failed(a, cause, d, now), FailedJob(b, cause, d, now))
  {}

  lemma AlikePick(a: Table, b: Table, queue: string, now: int, limit: int, picked: seq<JobId>)
    requires AlikeTables(a, b) && ValidPick(a, queue, now, limit, {}, picked)
    ensures ValidPick(b, queue, now, limit, {}, picked)
  {
    forall id | id in a ensures Eligible(a[id], queue, now) == Eligible(b[id], queue, now) {
      AlikeJobs(a[id], b[id], queue, now, "", 0, "");
    }
    hide Eligible;
    assert Candidates(a, queue, now, {}) == Candidates(b, queue, now, {});
    assert forall p, q :: p in a && q in a ==> Precedes(a[p], a[q]) == Precedes(b[p], b[q]);
  }

  lemma AlikeKeys(a: Table, b: Table, queue: string, key: Option<string>)
    requires AlikeTables(a, b)
    ensures HasKey(a, queue, key) == HasKey(b, queue, key)
  {
    forall id | id in a ensures SameKey(a[id], queue, key) == SameKey(b[id], queue, key) {
      AlikeJobs(a[id], b[id], queue, 0, "", 0, "");
    }
    hide SameKey;
    if HasKey(a, queue, key) {
      var id :| id in a && SameKey(a[id], queue, key);
      assert SameKey(b[id], queue, key);
    }
    if HasKey(b, queue, key) {
      var id :| id in b && SameKey(b[id], queue, key);
      assert SameKey(a[id], queue, key);
    }
  }

  lemma StepAlike(f: Fake, s: State, op: Op)
    requires Listed(f.jobs, f.order) && AlikeTables(f.jobs, s.rows) && f.now == s.now && Tame(f, op)
    ensures Enabled(s, Translated(f, op))
    ensures var g, t := Step(f, op), Apply(s, Translated(f, op));
            Listed(g.jobs, g.order) && AlikeTables(g.jobs, t.rows) && g.now == t.now
  {
    hide Eligible, HeadFirst, Alike, ValidPick, Claimed, ClaimedJob, Completed, CompletedJob, Failed, FailedJob, SameKey, Pick;
    match op {
      case Tick(_) =>
      case Enqueue(id, queue, kind, payload, opts, _) =>
        AlikeKeys(f.jobs, s.rows, queue, opts.Key());
        AlikeRefl(NewJob(queue, kind, payload, opts, f.now, f.now));
      case Dequeue(queue, worker, limit, visibility, _, _) =>
        PickValidExactly(f.jobs, f.order, queue, f.now, limit);
        AlikePick(f.jobs, s.rows, queue, f.now, limit, Pick(f.jobs, f.order, queue, f.now, limit));
        forall id | id in f.jobs
          ensures Alike(Claimed(f.jobs[id], worker, f.now, visibility), ClaimedJob(s.rows[id], worker, f.now, visibility))
        {
          AlikeJobs(f.jobs[id], s.rows[id], queue, f.now, worker, visibility, "");
        }
      case Complete(id) =>
        if id in f.jobs { AlikeJobs(f.jobs[id], s.rows[id], "", f.now, "", 0, ""); }
      case Fail(id, cause, backoff) =>
        if id in f.jobs { AlikeJobs(f.jobs[id], s.rows[id], "", f.now, "", backoff, cause); }
    }
  }

  lemma AlikeRefl(j: Job)
    ensures Alike(j, j)
  {}

  /**
    Every tame run of the fake is a run of the durable queue: the same picks are
    legal there, and the tables end alike but for last errors.
   */
  lemma {:induction false} Simulates(f: Fake, s: State, ops: seq<Op>)
    requires Listed(f.jobs, f.order) && AlikeTables(f.jobs, s.rows) && f.now == s.now && TameRun(f, ops)
    ensures ValidRun(s, TranslatedRun(f, ops))
    ensures AlikeTables(Run(f, ops).jobs, Exec(s, TranslatedRun(f, ops)).rows)
    decreases |ops|
  {
    if ops != [] {
      StepAlike(f, s, ops[0]);
      hide Tame, Step, Apply, Enabled, Listed, AlikeTables, Translated;
      Simulates(Step(f, ops[0]), Apply(s, Translated(f, ops[0])), ops[1..]);
      assert TranslatedRun(f, ops)[1..] == TranslatedRun(Step(f, ops[0]), ops[1..]);
    }
  }

  // ------------------------------------------------------- its rows, as told by events

  /** A run of the fake's own operations: it neither extends leases nor purges. */
  ghost predicate OwnRun(f: Fake, ops: seq<Op>)
    decreases |ops|
  {
    ops == [] || (!ops[0].Heartbeat? && !ops[0].Purge? && (ops[0].Enqueue? ==> ops[0].id !in f.jobs) && OwnRun(Step(f, ops[0]), ops[1..]))
  }

  ghost function FakeHistory(h: T.Events, f: Fake, ops: seq<Op>, id: JobId): T.Events
    decreases |ops|
  {
    if ops == [] then h
    else FakeHistory(T.Told(h, State(f.jobs, f.now), Translated(f, ops[0]), id), Step(f, ops[0]), ops[1..], id)
  }

  lemma FakeTells(f: Fake, h: T.Events, op: Op, id: JobId)
    requires id in f.jobs && T.Tells(T.InMemory, f.jobs[id], h) && !op.Heartbeat? && !op.Purge?
    ensures var told := T.Told(h, State(f.jobs, f.now), Translated(f, op), id);
            id in Step(f, op).jobs && T.Tells(T.InMemory, Step(f, op).jobs[id], told)
  {
    hide Pick;
    var told := T.Told(h, State(f.jobs, f.now), Translated(f, op), id);
    if told != h {
      T.Appended(T.InMemory, h, told[|h|]);
    }
  }

  lemma FakeInserts(f: Fake, op: Op, id: JobId)
    requires id !in f.jobs && !op.Heartbeat? && !op.Purge?
    ensures T.Agree(T.InMemory, Step(f, op).jobs, T.Told([], State(f.jobs, f.now), Translated(f, op), id), id)
  {
    hide Pick;
    if op.Enqueue? && op.id == id {
      assert T.KeyTaken(f.jobs, op.queue, op.opts.key) <==> HasKey(f.jobs, op.queue, op.opts.Key());
      T.NewTells(T.InMemory, op.queue, op.kind, op.payload, op.opts, f.now, f.now);
    }
  }

  /** In every run of the fake each row is what its events tell, by the durable queue's account but for two rules. */
  lemma {:induction false} FakeAsTold(f: Fake, ops: seq<Op>, id: JobId, h: T.Events)
    requires OwnRun(f, ops) && T.Agree(T.InMemory, f.jobs, h, id)
    ensures T.Agree(T.InMemory, Run(f, ops).jobs, FakeHistory(h, f, ops, id), id)
    decreases |ops|
  {
    if ops != [] {
      if id in f.jobs {
        FakeTells(f, h, ops[0], id);
      } else {
        FakeInserts(f, ops[0], id);
      }
      hide T.Tells, Step, T.Told;
      FakeAsTold(Step(f, ops[0]), ops[1..], id, T.Told(h, State(f.jobs, f.now), Translated(f, ops[0]), id));
    }
  }

  /** A dequeue takes the due jobs inserted first: up to the limit, none if that is not positive, fewer only when there are no more. */
  lemma TakesOldest(t: Table, order: seq<JobId>, queue: string, now: int, limit: int)
    requires Listed(t, order)
    ensures var picked := Pick(t, order, queue, now, limit);
            && (forall id :: id in picked ==> id in t && T.Due(t[id], queue, now))
            && |picked| <= (if limit > 0 then limit else 0)
            && (|picked| < limit ==> forall id :: id in t && T.Due(t[id], queue, now) ==> id in picked)
            && (forall i, j :: 0 <= i < j < |order| && order[j] in picked && T.Due(t[order[i]], queue, now) ==> order[i] in picked)
  {
    var line, picked := Line(t, order, queue, now), Pick(t, order, queue, now, limit);
    assert forall id :: id in line <==> id in t && T.Due(t[id], queue, now);
    hide Eligible, T.Due, Line;
    forall i, j | 0 <= i < j < |order| && order[j] in picked && T.Due(t[order[i]], queue, now) ensures order[i] in picked {
      assert order[i] in line;
      EarlierIn(t, order, queue, now, picked, i, j);
    }
  }

  /** What comes earlier in the order comes earlier in the line. */
  lemma {:induction false} EarlierIn(t: Table, order: seq<JobId>, queue: string, now: int, r: seq<JobId>, i: nat, j: nat)
    requires Distinct(order) && i < j < |order| && r <= Line(t, order, queue, now)
    requires order[i] in Line(t, order, queue, now) && order[j] in r
    ensures order[i] in r
  {
    hide Eligible;
    var n := |order| - 1;
    var line, shorter := Line(t, order, queue, now), Line(t, order[..n], queue, now);
    assert order[..n][i] == order[i] && order[n] !in order[..n];
    if |r| <= |shorter| {
      assert r <= shorter && order[j] in shorter;
      EarlierIn(t, order[..n], queue, now, r, i, j);
    } else {
      assert r == line;
    }
  }
}
