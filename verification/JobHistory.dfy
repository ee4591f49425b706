/**
  The durable queue told once more, from the events of each job alone: what was
  done to it and when. In every run the table says exactly what the events say.
 */
module JobHistory {
  import opened Common
  import opened Jobs

  datatype Event =
    | Inserted(queue: string, kind: string, payload: string, opts: EnqueueOptions, clientNow: int, at: int)
    | Claimed(worker: string, visibility: int, at: int)
    | Extended(extend: int, at: int)
    | Completed(at: int)
    | Failed(cause: string, backoff: int, at: int)

  /** Events since the row was inserted, oldest first; [] for a job that is not there. */
  type Events = seq<Event>

  ghost predicate Story(h: Events) { h != [] && h[0].Inserted? }

  ghost function Positive(d: int): nat { if d > 0 then d else 0 }

  /** What the durable queue and the in-memory one do differently: negative durations, and the error of a completed job. */
  datatype Rules = Durable | InMemory {
    ghost function Length(d: int): int { if Durable? then Positive(d) else d }
  }

  ghost function Claims(h: Events): nat {
    if h == [] then 0 else Claims(h[..|h| - 1]) + if h[|h| - 1].Claimed? then 1 else 0
  }

  /** The attempts asked for, 25 when none were. */
  ghost function Allowed(h: Events): int
    requires Story(h)
  {
    if h[0].opts.attempts > 0 then h[0].opts.attempts else 25
  }

  ghost predicate UsedUp(h: Events)
    requires Story(h)
  {
    Claims(h) >= Allowed(h)
  }

  ghost function StatusAfter(h: Events): Status
    requires Story(h)
  {
    match h[|h| - 1]
    case Inserted(_, _, _, _, _, _) => Pending
    case Claimed(_, _, _) => Running
    case Extended(_, _) => Running
    case Completed(_) => Succeeded
    case Failed(_, _, _) => if UsedUp(h) then Dead else Pending
  }

  /** Until when, if the last event left it leased. */
  ghost function LeaseAfter(rules: Rules, h: Events): Option<int>
    requires Story(h)
  {
    match h[|h| - 1]
    case Claimed(_, visibility, at) => Some(at + rules.Length(visibility))
    case Extended(extend, at) => Some(at + rules.Length(extend))
    case _ => None
  }

  ghost function HolderAfter(h: Events): Option<string>
    requires Story(h)
  {
    match h[|h| - 1]
    case Claimed(worker, _, _) => Some(worker)
    case Extended(_, _) => if |h| == 1 then None else HolderAfter(h[..|h| - 1])
    case _ => None
  }

  ghost function AvailableAfter(rules: Rules, h: Events): int
    requires Story(h)
  {
    if |h| == 1 then
      var e := h[0];
      if e.opts.runAt.Some? then e.opts.runAt.value else e.clientNow + Positive(e.opts.delay)
    else if h[|h| - 1].Failed? && !UsedUp(h) then h[|h| - 1].at + rules.Length(h[|h| - 1].backoff)
    else AvailableAfter(rules, h[..|h| - 1])
  }

  ghost function ErrorAfter(rules: Rules, h: Events): Option<string>
    requires Story(h)
  {
    match h[|h| - 1]
    case Failed(cause, _, _) => Some(cause)
    case Completed(_) => if rules.Durable? || |h| == 1 then None else ErrorAfter(rules, h[..|h| - 1])
    case _ => if |h| == 1 then None else ErrorAfter(rules, h[..|h| - 1])
  }

  /** The row is what its events make of it. */
  ghost predicate Tells(rules: Rules, j: Job, h: Events) {
    && Story(h)
    && j.queue == h[0].queue && j.kind == h[0].kind && j.payload == h[0].payload && j.priority == h[0].opts.priority
    && j.key == (if h[0].opts.key == "" then None else Some(h[0].opts.key))
    && j.maxAttempts == Allowed(h) && j.attempts == Claims(h)
    && j.status == StatusAfter(h) && j.leasedUntil == LeaseAfter(rules, h) && j.leasedBy == HolderAfter(h)
    && j.availableAt == AvailableAfter(rules, h) && j.lastError == ErrorAfter(rules, h)
    && j.updatedAt == h[|h| - 1].at
  }

  ghost predicate KeyTaken(t: Table, queue: string, key: string) {
    key != "" && exists id :: id in t && t[id].queue == queue && t[id].key == Some(key)
  }

  /** What op adds to the events of a job; of the table only the keys of other rows matter. */
  ghost function Told(h: Events, s: State, op: Op, id: JobId): Events {
    match op
    case Tick(_) => h
    case Enqueue(i, queue, kind, payload, opts, clientNow) =>
      if i == id && h == [] && !KeyTaken(s.rows, queue, opts.key) then [Inserted(queue, kind, payload, opts, clientNow, s.now)] else h
    case Dequeue(_, worker, _, visibility, _, picked) =>
      if h != [] && id in picked then h + [Claimed(worker, visibility, s.now)] else h
    case Complete(i) => if h != [] && i == id then h + [Completed(s.now)] else h
    case Fail(i, cause, backoff) => if h != [] && i == id then h + [Failed(cause, backoff, s.now)] else h
    case Heartbeat(i, worker, extend) =>
      if Story(h) && i == id && HolderAfter(h) == Some(worker) then h + [Extended(extend, s.now)] else h
    case Purge(age) => if Story(h) && h[|h| - 1].Completed? && h[|h| - 1].at < s.now - Positive(age) then [] else h
  }

  ghost function History(h: Events, s: State, ops: seq<Op>, id: JobId): Events
    decreases |ops|
  {
    if ops == [] then h else History(Told(h, s, ops[0], id), Apply(s, ops[0]), ops[1..], id)
  }

  ghost predicate Agree(rules: Rules, t: Table, h: Events, id: JobId) {
    (id in t <==> h != []) && (id in t ==> Tells(rules, t[id], h))
  }

  /** One more event, and what becomes of each account. */
  lemma Appended(rules: Rules, h: Events, e: Event)
    requires Story(h) && !e.Inserted?
    ensures var all := h + [e];
            && Story(all) && Allowed(all) == Allowed(h) && Claims(all) == Claims(h) + (if e.Claimed? then 1 else 0)
            && (e.Extended? ==> HolderAfter(all) == HolderAfter(h))
            && (!e.Failed? || UsedUp(all) ==> AvailableAfter(rules, all) == AvailableAfter(rules, h))
            && (e.Claimed? || e.Extended? || (e.Completed? && rules.InMemory?) ==> ErrorAfter(rules, all) == ErrorAfter(rules, h))
  {
    assert (h + [e])[..|h|] == h;
  }

  lemma TellsAfter(j: Job, h: Events, s: State, op: Op, id: JobId)
    requires Tells(Durable, j, h) && id in s.rows && s.rows[id] == j && !op.Purge?
    ensures id in Apply(s, op).rows && Tells(Durable, Apply(s, op).rows[id], Told(h, s, op, id))
  {
    var all := Told(h, s, op, id);
    if all != h {
      Appended(Durable, h, all[|h|]);
    }
  }

  lemma PurgeTells(j: Job, h: Events, s: State, age: int, id: JobId)
    requires Tells(Durable, j, h) && id in s.rows && s.rows[id] == j
    ensures Agree(Durable, Apply(s, Purge(age)).rows, Told(h, s, Purge(age), id), id)
  {}

  lemma NewTells(rules: Rules, queue: string, kind: string, payload: string, opts: EnqueueOptions, now: int, clientNow: int)
    ensures Tells(rules, NewJob(queue, kind, payload, opts, now, clientNow), [Inserted(queue, kind, payload, opts, clientNow, now)])
  {
    assert [Inserted(queue, kind, payload, opts, clientNow, now)][..0] == [];
  }

  lemma InsertTells(s: State, op: Op, id: JobId)
    requires id !in s.rows
    ensures Agree(Durable, Apply(s, op).rows, Told([], s, op, id), id)
  {
    if op.Enqueue? && op.id == id {
      assert KeyTaken(s.rows, op.queue, op.opts.key) <==> HasKey(s.rows, op.queue, op.opts.Key());
      NewTells(Durable, op.queue, op.kind, op.payload, op.opts, s.now, op.clientNow);
    }
  }

  /** In every run every row is there, and says what it says, exactly as its events tell. */
  lemma {:induction false} RowsAsTold(s: State, ops: seq<Op>, id: JobId, h: Events)
    requires TableOk(s.rows) && ValidRun(s, ops) && Agree(Durable, s.rows, h, id)
    ensures Agree(Durable, Exec(s, ops).rows, History(h, s, ops, id), id)
    decreases |ops|
  {
    if ops != [] {
      StepKeepsTable(s, ops[0]);
      if id !in s.rows {
        InsertTells(s, ops[0], id);
      } else if ops[0].Purge? {
        PurgeTells(s.rows[id], h, s, ops[0].age, id);
      } else {
        TellsAfter(s.rows[id], h, s, ops[0], id);
      }
      hide TableOk, Tells, Apply, Enabled, Told;
      RowsAsTold(Apply(s, ops[0]), ops[1..], id, Told(h, s, ops[0], id));
    }
  }

  // ---------------------------------------------------------- which jobs are claimed

  /** Waiting and due, or running on a lease that has run out. */
  ghost predicate Due(j: Job, queue: string, now: int) {
    j.queue == queue && match j.status
                        case Pending => j.availableAt <= now
                        case Running => j.leasedUntil.Some? && now > j.leasedUntil.value
                        case _ => false
  }

  lemma {:induction false} EnabledAt(s: State, ops: seq<Op>, k: nat)
    requires TableOk(s.rows) && ValidRun(s, ops) && k < |ops|
    ensures Enabled(Exec(s, ops[..k]), ops[k]) && TableOk(Exec(s, ops[..k]).rows)
    decreases |ops|
  {
    if k > 0 {
      StepKeepsTable(s, ops[0]);
      hide TableOk, Enabled, Apply;
      EnabledAt(Apply(s, ops[0]), ops[1..], k - 1);
      assert ops[..k][1..] == ops[1..][..k - 1];
    }
  }

  /**
    In every run, whatever rows others have locked, a claim takes only due jobs of
    its queue, no more than its limit (one if that is not positive), and fewer only
    when it takes every due job not locked; and a due, unlocked job it leaves has no
    higher priority than any it takes, and with equal priority became available no
    earlier.
   */
  lemma ClaimsMostUrgent(s: State, ops: seq<Op>, k: nat)
    requires TableOk(s.rows) && ValidRun(s, ops) && k < |ops| && ops[k].Dequeue?
    ensures var t, now, op := Exec(s, ops[..k]).rows, Exec(s, ops[..k]).now, ops[k];
            && (forall p :: p in op.picked ==> p in t && p !in op.locked && Due(t[p], op.queue, now))
            && |op.picked| <= (if op.limit >= 1 then op.limit else 1)
            && (forall id :: id in t && id !in op.locked && id !in op.picked && Due(t[id], op.queue, now) ==>
                  && |op.picked| == (if op.limit >= 1 then op.limit else 1)
                  && forall p :: p in op.picked ==>
                       t[p].priority > t[id].priority || (t[p].priority == t[id].priority && t[p].availableAt <= t[id].availableAt))
  {
    EnabledAt(s, ops, k);
    var t, now, op := Exec(s, ops[..k]).rows, Exec(s, ops[..k]).now, ops[k];
    assert forall id :: id in Candidates(t, op.queue, now, op.locked) <==> id in t && id !in op.locked && Due(t[id], op.queue, now);
  }

  /** Of two jobs equally urgent but for their age, a single claim can only take the elder. */
  lemma ElderFirst(t: Table, elder: JobId, young: JobId, queue: string, now: int, picked: seq<JobId>)
    requires t.Keys == {elder, young} && Due(t[elder], queue, now) && Due(t[young], queue, now)
    requires t[elder].priority == t[young].priority && t[elder].availableAt < t[young].availableAt
    requires ValidPick(t, queue, now, 1, {}, picked)
    ensures picked == [elder]
  {
    var c := Candidates(t, queue, now, {});
    assert elder in c && young in c;
    assert |picked| == 1 && picked[0] in picked;
  }
}
