/**
  Who may act on a job, and when. Every claim a Dequeue hands out gets a
  ticket; a claim is live while the lease it believes it holds has not run out.
 */
module JobLeases {
  import opened Common
  import opened Jobs

  /** The claim's own view: until is the end of the lease it was granted or last extended. */
  datatype Claim = Claim(id: JobId, worker: string, until: int)

  datatype Protocol = Protocol(queue: State, claims: map<nat, Claim>, latest: map<JobId, nat>, next: nat)

  datatype Act =
    | Other(op: Op)                                     // Tick, Enqueue or Purge
    | Grab(op: Op)                                      // Dequeue
    | Beat(ticket: nat, extend: int)
    | Finish(ticket: nat)
    | Abort(ticket: nat, cause: string, backoff: int)

  ghost predicate Live(p: Protocol, ticket: nat) {
    ticket in p.claims && p.queue.now <= p.claims[ticket].until
  }

  ghost predicate Possible(p: Protocol, act: Act) {
    match act
    case Other(op) => op.Tick? || op.Enqueue? || op.Purge?
    case Grab(op) => op.Dequeue? && Enabled(p.queue, op)
    case Beat(ticket, _) => ticket in p.claims
    case Finish(ticket) => ticket in p.claims
    case Abort(ticket, _, _) => ticket in p.claims
  }

  /** True when the heartbeat statement would match the row. */
  ghost predicate BeatHits(p: Protocol, ticket: nat)
    requires ticket in p.claims
  {
    var c := p.claims[ticket];
    c.id in p.queue.rows && HeldBy(p.queue.rows[c.id], c.worker)
  }

  /** The worker has not itself claimed this job again since. */
  ghost predicate NotSuperseded(p: Protocol, ticket: nat)
    requires ticket in p.claims
  {
    BeatHits(p, ticket) ==> p.claims[ticket].id in p.latest && p.latest[p.claims[ticket].id] == ticket
  }

  /** The heartbeat's statement matches no row, or no other claim on that job is still live. */
  ghost predicate Alone(p: Protocol, ticket: nat)
    requires ticket in p.claims
  {
    BeatHits(p, ticket) ==> forall k: nat :: Live(p, k) && p.claims[k].id == p.claims[ticket].id ==> k == ticket
  }

  /** Only live claims finish or abort. */
  ghost predicate Prompt(p: Protocol, act: Act) {
    (act.Finish? || act.Abort?) ==> Live(p, act.ticket)
  }

  /** And a heartbeat is made only when it is alone. */
  ghost predicate Disciplined(p: Protocol, act: Act)
    requires Possible(p, act)
  {
    Prompt(p, act) && (act.Beat? ==> Alone(p, act.ticket))
  }

  ghost function NewClaims(picked: seq<JobId>, first: nat, worker: string, until: int): (m: map<nat, Claim>)
    ensures forall k :: k in m <==> first <= k < first + |picked|
    ensures forall k :: k in m ==> m[k] == Claim(picked[k - first], worker, until)
  {
    if picked == [] then map[]
    else NewClaims(picked[1..], first + 1, worker, until)[first := Claim(picked[0], worker, until)]
  }

  ghost function NewLatest(picked: seq<JobId>, first: nat): (m: map<JobId, nat>)
    requires Distinct(picked)
    ensures forall id :: id in m <==> id in picked
    ensures forall i :: 0 <= i < |picked| ==> m[picked[i]] == first + i
  {
    if picked == [] then map[]
    else
      NewLatest(picked[1..], first + 1)[picked[0] := first]
  }

  ghost function Perform(p: Protocol, act: Act): Protocol
    requires Possible(p, act)
  {
    match act
    case Other(op) => p.(queue := Apply(p.queue, op))
    case Grab(op) =>
      p.(queue := Apply(p.queue, op),
         claims := p.claims + NewClaims(op.picked, p.next, op.worker, p.queue.now + Interval(op.visibility)),
         latest := p.latest + NewLatest(op.picked, p.next),
         next := p.next + |op.picked|)
    case Beat(ticket, extend) =>
      var c := p.claims[ticket];
      p.(queue := Apply(p.queue, Heartbeat(c.id, c.worker, extend)),
         claims := if BeatHits(p, ticket) then p.claims[ticket := c.(until := p.queue.now + Interval(extend))] else p.claims)
    case Finish(ticket) =>
      p.(queue := Apply(p.queue, Complete(p.claims[ticket].id)), claims := p.claims - {ticket})
    case Abort(ticket, cause, backoff) =>
      p.(queue := Apply(p.queue, Fail(p.claims[ticket].id, cause, backoff)), claims := p.claims - {ticket})
  }

  /** The row agrees with the claim: it is running, leased under that worker's name at least as long. */
  ghost predicate Backed(p: Protocol, ticket: nat)
    requires ticket in p.claims
  {
    var c := p.claims[ticket];
    && c.id in p.queue.rows
    && var j := p.queue.rows[c.id];
    HeldBy(j, c.worker) && j.leasedUntil.Some? && c.until <= j.leasedUntil.value
  }

  /** No two live claims on one job. */
  ghost predicate Exclusive(p: Protocol) {
    forall a: nat, b: nat :: Live(p, a) && Live(p, b) && p.claims[a].id == p.claims[b].id ==> a == b
  }

  ghost predicate Inv(p: Protocol) {
    && TableOk(p.queue.rows)
    && (forall k :: k in p.claims ==> k < p.next)
    && (forall k: nat :: Live(p, k) ==> Backed(p, k))
    && Exclusive(p)
  }

  lemma StartInv(now: int)
    ensures Inv(Protocol(State(map[], now), map[], map[], 0))
  {}

  /** The claims after a grab: the old ones as they were, and one on each row grabbed. */
  lemma ClaimsAfter(p: Protocol, op: Op, k: nat)
    requires Possible(p, Grab(op)) && (forall k :: k in p.claims ==> k < p.next) && k in Perform(p, Grab(op)).claims
    ensures var q := Perform(p, Grab(op));
            && (k < p.next ==> k in p.claims && q.claims[k] == p.claims[k])
            && (k >= p.next ==> k - p.next < |op.picked|
                                && q.claims[k] == Claim(op.picked[k - p.next], op.worker, p.queue.now + Interval(op.visibility)))
  {
    hide NewClaims, NewLatest, Apply, ValidPick;
  }

  /** A live claim's row is not for grabs. */
  lemma NotGrabbed(p: Protocol, op: Op, k: nat)
    requires Possible(p, Grab(op)) && Live(p, k) && Backed(p, k)
    ensures p.claims[k].id !in op.picked
  {
    assert !Eligible(p.queue.rows[p.claims[k].id], op.queue, p.queue.now);
  }

  lemma BackedAfter(p: Protocol, op: Op, k: nat)
    requires Inv(p) && Possible(p, Grab(op)) && Live(Perform(p, Grab(op)), k)
    ensures Backed(Perform(p, Grab(op)), k) && (k < p.next ==> Live(p, k) && p.claims[k].id !in op.picked)
  {
    hide TableOk, Exclusive, NewClaims, NewLatest;
    ClaimsAfter(p, op, k);
    var id := Perform(p, Grab(op)).claims[k].id;
    if k < p.next {
      assert Live(p, k) && Backed(p, k);
      NotGrabbed(p, op, k);
    } else {
      assert id in op.picked;
    }
  }

  lemma GrabKeeps(p: Protocol, op: Op)
    requires Inv(p) && Possible(p, Grab(op))
    ensures Inv(Perform(p, Grab(op)))
  {
    var q := Perform(p, Grab(op));
    assert Distinct(op.picked);
    ClaimKeepsTable(p.queue.rows, op.picked, op.worker, p.queue.now, op.visibility);
    hide TableOk, Backed, Eligible, ValidPick, NewClaims, NewLatest, ClaimRows;
    forall k: nat | Live(q, k) ensures Backed(q, k) {
      BackedAfter(p, op, k);
    }
    forall a: nat, b: nat | Live(q, a) && Live(q, b) && q.claims[a].id == q.claims[b].id ensures a == b {
      OneAfterGrab(p, op, a, b);
    }
    forall k | k in q.claims ensures k < q.next {
      ClaimsAfter(p, op, k);
    }
  }

  lemma OneAfterGrab(p: Protocol, op: Op, a: nat, b: nat)
    requires Inv(p) && Possible(p, Grab(op))
    requires var q := Perform(p, Grab(op)); Live(q, a) && Live(q, b) && q.claims[a].id == q.claims[b].id
    ensures a == b
  {
    assert Distinct(op.picked);
    ClaimsAfter(p, op, a);
    ClaimsAfter(p, op, b);
    BackedAfter(p, op, a);
    BackedAfter(p, op, b);
    hide TableOk, Backed, Perform, Possible;
    if a >= p.next { assert op.picked[a - p.next] in op.picked; }
    if b >= p.next { assert op.picked[b - p.next] in op.picked; }
  }

  lemma OtherKeeps(p: Protocol, op: Op)
    requires Inv(p) && Possible(p, Other(op))
    ensures Inv(Perform(p, Other(op)))
  {
    var q := Perform(p, Other(op));
    StepKeepsTable(p.queue, op);
    hide TableOk;
    forall k: nat | Live(q, k) ensures Live(p, k) && Backed(q, k) {
      assert Live(p, k) && Backed(p, k);
    }
  }

  /** A settled claim is gone, and its row with it; the others stay as they were. */
  lemma SettleKeeps(p: Protocol, act: Act)
    requires Inv(p) && Possible(p, act) && Prompt(p, act) && (act.Finish? || act.Abort?)
    ensures Inv(Perform(p, act))
  {
    var q := Perform(p, act);
    var c := p.claims[act.ticket];
    StepKeepsTable(p.queue, if act.Abort? then Fail(c.id, act.cause, act.backoff) else Complete(c.id));
    hide TableOk;
    forall k: nat | Live(q, k) ensures Live(p, k) && Backed(q, k) {
      assert Live(p, k) && Backed(p, k);
    }
  }

  lemma BeatKeeps(p: Protocol, ticket: nat, extend: int)
    requires Inv(p) && ticket in p.claims && Alone(p, ticket)
    ensures Inv(Perform(p, Beat(ticket, extend)))
  {
    var q := Perform(p, Beat(ticket, extend));
    StepKeepsTable(p.queue, Heartbeat(p.claims[ticket].id, p.claims[ticket].worker, extend));
    hide TableOk;
    forall k: nat | Live(q, k)
      ensures Backed(q, k) && (k != ticket ==> Live(p, k) && q.claims[k] == p.claims[k])
    {
      if k != ticket || !BeatHits(p, ticket) { assert Live(p, k) && Backed(p, k); }
    }
    hide Backed;
    forall a: nat, b: nat | Live(q, a) && Live(q, b) && q.claims[a].id == q.claims[b].id ensures a == b {
      if !BeatHits(p, ticket) { assert Live(p, a) && Live(p, b); }
    }
  }

  lemma StepKeeps(p: Protocol, act: Act)
    requires Inv(p) && Possible(p, act) && Disciplined(p, act)
    ensures Inv(Perform(p, act))
  {
    match act {
      case Grab(op) => GrabKeeps(p, op);
      case Other(op) => OtherKeeps(p, op);
      case Beat(ticket, extend) => BeatKeeps(p, ticket, extend);
      case _ => SettleKeeps(p, act);
    }
  }

  /** A heartbeat that is not alone makes two claims live at once, whatever the extension. */
  lemma CrowdedBeat(p: Protocol, ticket: nat, extend: int)
    requires ticket in p.claims && !Alone(p, ticket)
    ensures !Exclusive(Perform(p, Beat(ticket, extend)))
  {
    var q := Perform(p, Beat(ticket, extend));
    var k: nat :| Live(p, k) && p.claims[k].id == p.claims[ticket].id && k != ticket;
    assert Live(q, ticket) && Live(q, k) && q.claims[k].id == q.claims[ticket].id;
  }

  /** Among prompt steps exactly the crowded heartbeats end exclusivity. */
  lemma StepExactly(p: Protocol, act: Act)
    requires Inv(p) && Possible(p, act) && Prompt(p, act)
    ensures Exclusive(Perform(p, act)) <==> Disciplined(p, act)
    ensures Disciplined(p, act) ==> Inv(Perform(p, act))
  {
    if Disciplined(p, act) {
      StepKeeps(p, act);
    } else {
      CrowdedBeat(p, act.ticket, act.extend);
    }
  }

  ghost predicate PromptRun(p: Protocol, acts: seq<Act>)
    decreases |acts|
  {
    acts == [] || (Possible(p, acts[0]) && Prompt(p, acts[0]) && PromptRun(Perform(p, acts[0]), acts[1..]))
  }

  /** At every point of the run, the first and the last included. */
  ghost predicate AlwaysExclusive(p: Protocol, acts: seq<Act>)
    requires PromptRun(p, acts)
    decreases |acts|
  {
    Exclusive(p) && (acts == [] || AlwaysExclusive(Perform(p, acts[0]), acts[1..]))
  }

  /** Every heartbeat of the run was alone when it was made. */
  ghost predicate EveryBeatAlone(p: Protocol, acts: seq<Act>)
    requires PromptRun(p, acts)
    decreases |acts|
  {
    acts == [] || ((acts[0].Beat? ==> Alone(p, acts[0].ticket)) && EveryBeatAlone(Perform(p, acts[0]), acts[1..]))
  }

  /**
    The lease is exclusive: in every run in which only live claims finish or
    abort, at most one claim per job is live at every point if and only if every
    heartbeat was alone when made.
   */
  lemma {:induction false} ExclusiveExactly(p: Protocol, acts: seq<Act>)
    requires Inv(p) && PromptRun(p, acts)
    ensures AlwaysExclusive(p, acts) <==> EveryBeatAlone(p, acts)
    decreases |acts|
  {
    if acts != [] {
      StepExactly(p, acts[0]);
      var q := Perform(p, acts[0]);
      hide Inv, Possible, Perform, Alone, Exclusive, Prompt;
      if Disciplined(p, acts[0]) {
        ExclusiveExactly(q, acts[1..]);
      }
    }
  }

  ghost predicate Behaves(p: Protocol, acts: seq<Act>)
    decreases |acts|
  {
    acts == [] || (Possible(p, acts[0]) && Disciplined(p, acts[0]) && Behaves(Perform(p, acts[0]), acts[1..]))
  }

  ghost function After(p: Protocol, acts: seq<Act>): Protocol
    requires Behaves(p, acts)
    decreases |acts|
  {
    if acts == [] then p else After(Perform(p, acts[0]), acts[1..])
  }

  lemma {:induction false} RunKeeps(p: Protocol, acts: seq<Act>)
    requires Inv(p) && Behaves(p, acts)
    ensures Inv(After(p, acts))
    decreases |acts|
  {
    if acts != [] {
      StepKeeps(p, acts[0]);
      RunKeeps(Perform(p, acts[0]), acts[1..]);
    }
  }

  /** In particular, at most one live claim per job in every disciplined run from the empty table. */
  lemma ExclusiveLease(now: int, acts: seq<Act>, a: nat, b: nat)
    requires var start := Protocol(State(map[], now), map[], map[], 0);
             Behaves(start, acts) && Live(After(start, acts), a) && Live(After(start, acts), b)
             && After(start, acts).claims[a].id == After(start, acts).claims[b].id
    ensures a == b
  {
    StartInv(now);
    RunKeeps(Protocol(State(map[], now), map[], map[], 0), acts);
  }

  /** The disciplined runs are the prompt ones whose heartbeats are all alone. */
  lemma {:induction false} DisciplinedRuns(p: Protocol, acts: seq<Act>)
    ensures Behaves(p, acts) <==> PromptRun(p, acts) && EveryBeatAlone(p, acts)
    decreases |acts|
  {
    if acts != [] && Possible(p, acts[0]) {
      DisciplinedRuns(Perform(p, acts[0]), acts[1..]);
    }
  }

  /** A heartbeat leaves at most one live claim per job if and only if it misses, or no other claim on its job is live. */
  lemma HeartbeatGuardExact(p: Protocol, ticket: nat, extend: int)
    requires Inv(p) && ticket in p.claims
    ensures Exclusive(Perform(p, Beat(ticket, extend))) <==> Alone(p, ticket)
  {
    StepExactly(p, Beat(ticket, extend));
  }

  // ------------------------------------------- a stricter, local discipline

  /** Every live claim is also the newest one on its job. */
  ghost predicate Strict(p: Protocol) {
    Inv(p) && forall k: nat :: Live(p, k) ==> p.claims[k].id in p.latest && p.latest[p.claims[k].id] == k
  }

  /** A worker that heartbeats only its newest claims is alone whenever it does. */
  lemma NewestIsAlone(p: Protocol, ticket: nat)
    requires Strict(p) && ticket in p.claims && NotSuperseded(p, ticket)
    ensures Alone(p, ticket)
  {}

  /** Such workers are disciplined, and stay so. */
  lemma StrictStep(p: Protocol, act: Act)
    requires Strict(p) && Possible(p, act) && Prompt(p, act) && (act.Beat? ==> NotSuperseded(p, act.ticket))
    ensures Disciplined(p, act) && Strict(Perform(p, act))
  {
    var q := Perform(p, act);
    if act.Beat? { NewestIsAlone(p, act.ticket); }
    StepKeeps(p, act);
    hide Inv;
    forall k: nat | Live(q, k) ensures q.claims[k].id in q.latest && q.latest[q.claims[k].id] == k {
      StrictClaim(p, act, k);
    }
  }

  lemma StrictClaim(p: Protocol, act: Act, k: nat)
    requires Strict(p) && Possible(p, act) && (act.Beat? ==> NotSuperseded(p, act.ticket)) && Live(Perform(p, act), k)
    ensures var q := Perform(p, act); q.claims[k].id in q.latest && q.latest[q.claims[k].id] == k
  {
    hide TableOk, Exclusive, HeldBy;
    if act.Grab? {
      StrictGrab(p, act.op, k);
    } else if !(act.Beat? && k == act.ticket && BeatHits(p, k)) {
      assert Live(p, k);
    }
  }

  lemma StrictGrab(p: Protocol, op: Op, k: nat)
    requires Strict(p) && Possible(p, Grab(op)) && Live(Perform(p, Grab(op)), k)
    ensures var q := Perform(p, Grab(op)); q.claims[k].id in q.latest && q.latest[q.claims[k].id] == k
  {
    ClaimsAfter(p, op, k);
    BackedAfter(p, op, k);
    hide TableOk, Exclusive, Backed, NewClaims, NewLatest, Eligible, Apply;
    if k >= p.next {
      var i := k - p.next;
      assert NewLatest(op.picked, p.next)[op.picked[i]] == p.next + i;
    }
  }

  /** That every live claim is its job's newest survives a heartbeat if and only if the heartbeat comes from the newest claim. */
  lemma HeartbeatBooksExact(p: Protocol, ticket: nat, extend: int)
    requires Strict(p) && ticket in p.claims
    ensures Strict(Perform(p, Beat(ticket, extend))) <==> NotSuperseded(p, ticket)
  {
    if NotSuperseded(p, ticket) {
      StrictStep(p, Beat(ticket, extend));
    } else {
      assert Live(Perform(p, Beat(ticket, extend)), ticket);
    }
  }

  /**
    Without that guard exclusivity fails: one worker reclaims its own expired
    job, the heartbeat of the old claim still matches by worker name, and both
    claims are live.
   */
  lemma SelfReclaimBreaksLease(p: Protocol, stale: nat, current: nat, extend: int)
    requires Inv(p) && stale != current && stale in p.claims && Live(p, current)
    requires p.claims[stale].id == p.claims[current].id && p.claims[stale].worker == p.claims[current].worker
    ensures var q := Perform(p, Beat(stale, extend));
            Live(q, stale) && Live(q, current) && q.claims[stale].id == q.claims[current].id
  {
    assert Backed(p, current);
  }

  /** Claiming from a table of one eligible row. */
  lemma GrabSole(p: Protocol, id: JobId, j: Job, worker: string, visibility: int)
    requires p.queue.rows == map[id := j] && Eligible(j, j.queue, p.queue.now)
    ensures var grab := Grab(Dequeue(j.queue, worker, 1, visibility, {}, [id]));
            Possible(p, grab)
            && Perform(p, grab) == Protocol(
              State(map[id := ClaimedJob(j, worker, p.queue.now, visibility)], p.queue.now),
              p.claims[p.next := Claim(id, worker, p.queue.now + Interval(visibility))],
              p.latest[id := p.next], p.next + 1)
  {
    PickSole(p.queue.rows, id, j, p.queue.now);
    hide ValidPick, Eligible, ClaimedJob, ClaimRows, NewClaims, NewLatest;
    ClaimSole(id, j, worker, p.queue.now, visibility);
    SoleTicket(id, p.next, worker, p.queue.now + Interval(visibility));
    AddOne(p.claims, p.next, Claim(id, worker, p.queue.now + Interval(visibility)));
    AddOne(p.latest, id, p.next);
  }

  lemma AddOne<K, V>(m: map<K, V>, k: K, v: V)
    ensures m + map[k := v] == m[k := v]
  {}

  lemma ClaimSole(id: JobId, j: Job, worker: string, now: int, visibility: int)
    ensures ClaimRows(map[id := j], [id], worker, now, visibility) == map[id := ClaimedJob(j, worker, now, visibility)]
  {
    hide ClaimedJob;
  }

  lemma SoleTicket(id: JobId, ticket: nat, worker: string, until: int)
    ensures NewClaims([id], ticket, worker, until) == map[ticket := Claim(id, worker, until)]
    ensures NewLatest([id], ticket) == map[id := ticket]
  {}

  lemma PickSole(t: Table, id: JobId, j: Job, now: int)
    requires t == map[id := j] && Eligible(j, j.queue, now)
    ensures ValidPick(t, j.queue, now, 1, {}, [id])
  {
    assert Candidates(t, j.queue, now, {}) == {id};
  }

  /** Such a state is reached by four disciplined steps: enqueue, claim, let the lease run out, claim again. */
  lemma SelfReclaimReachable(id: JobId, queue: string, kind: string, payload: string, worker: string, visibility: nat)
    returns (acts: seq<Act>)
    ensures var start := Protocol(State(map[], 0), map[], map[], 0);
            && Behaves(start, acts)
            && var p := After(start, acts);
               0 in p.claims && Live(p, 1) && !NotSuperseded(p, 0)
               && p.claims[0].worker == p.claims[1].worker == worker && p.claims[0].id == p.claims[1].id == id
  {
    var j := NewJob(queue, kind, payload, EnqueueOptions(0, 0, None, 0, ""), 0, 0);
    var add := Other(Enqueue(id, queue, kind, payload, EnqueueOptions(0, 0, None, 0, ""), 0));
    var grab := Grab(Dequeue(queue, worker, 1, visibility, {}, [id]));
    var wait := Other(Tick(visibility + 1));
    var p0 := Protocol(State(map[], 0), map[], map[], 0);
    var p1 := Perform(p0, add);
    GrabSole(p1, id, j, worker, visibility);
    var p2 := Perform(p1, grab);
    var p3 := Perform(p2, wait);
    GrabSole(p3, id, ClaimedJob(j, worker, 0, visibility), worker, visibility);
    var p4 := Perform(p3, grab);
    assert 0 in p4.claims && Live(p4, 1) && !NotSuperseded(p4, 0) && p4.claims[0].worker == p4.claims[1].worker == worker;
    assert p4.claims[0].id == p4.claims[1].id == id;
    assert Disciplined(p0, add) && Disciplined(p1, grab) && Disciplined(p2, wait) && Disciplined(p3, grab);
    acts := [add] + ([grab] + ([wait] + ([grab] + [])));
    FourSteps(p0, add, grab, wait, grab);
  }

  lemma FourSteps(p: Protocol, a: Act, b: Act, c: Act, d: Act)
    requires Possible(p, a) && Disciplined(p, a)
    requires Possible(Perform(p, a), b) && Disciplined(Perform(p, a), b)
    requires Possible(Perform(Perform(p, a), b), c) && Disciplined(Perform(Perform(p, a), b), c)
    requires Possible(Perform(Perform(Perform(p, a), b), c), d) && Disciplined(Perform(Perform(Perform(p, a), b), c), d)
    ensures var acts := [a] + ([b] + ([c] + ([d] + [])));
      Behaves(p, acts) && After(p, acts) == Perform(Perform(Perform(Perform(p, a), b), c), d)
  {
    hide Possible, Disciplined, Perform;
    var p1 := Perform(p, a);
    var p2 := Perform(p1, b);
    var p3 := Perform(p2, c);
    Prepend(p3, d, []);
    Prepend(p2, c, [d] + []);
    Prepend(p1, b, [c] + ([d] + []));
    Prepend(p, a, [b] + ([c] + ([d] + [])));
  }

  lemma Prepend(p: Protocol, act: Act, rest: seq<Act>)
    requires Possible(p, act) && Disciplined(p, act) && Behaves(Perform(p, act), rest)
    ensures Behaves(p, [act] + rest) && After(p, [act] + rest) == After(Perform(p, act), rest)
  {
    assert ([act] + rest)[1..] == rest;
  }

  /**
    Exclusivity fails from the empty table: that run, and then one heartbeat of
    the old claim, whose only breach is being superseded.
   */
  lemma TwoLiveClaims(id: JobId, queue: string, kind: string, payload: string, worker: string, visibility: nat, extend: int)
    returns (acts: seq<Act>)
    ensures var start := Protocol(State(map[], 0), map[], map[], 0);
            && Behaves(start, acts)
            && var p := After(start, acts);
               Possible(p, Beat(0, extend)) && !Exclusive(Perform(p, Beat(0, extend)))
  {
    var start := Protocol(State(map[], 0), map[], map[], 0);
    acts := SelfReclaimReachable(id, queue, kind, payload, worker, visibility);
    StartInv(0);
    RunKeeps(start, acts);
    var p := After(start, acts);
    hide Behaves, After, Perform, Inv;
    SelfReclaimBreaksLease(p, 0, 1, extend);
  }

  // ------------------------------------------------------- terminal statuses

  ghost predicate Terminal(j: Job) { j.status == Succeeded || j.status == Dead }

  /** Some purge in the run deletes the row id. */
  ghost predicate Purged(p: Protocol, acts: seq<Act>, id: JobId)
    requires Behaves(p, acts)
    decreases |acts|
  {
    acts != [] &&
    ((id in p.queue.rows && id !in Perform(p, acts[0]).queue.rows) || Purged(Perform(p, acts[0]), acts[1..], id))
  }

  lemma TerminalStep(p: Protocol, act: Act, id: JobId)
    requires Inv(p) && Possible(p, act) && Disciplined(p, act)
    requires id in p.queue.rows && Terminal(p.queue.rows[id])
    ensures var rows := Perform(p, act).queue.rows;
            if id in rows then rows[id] == p.queue.rows[id] else act.Other? && act.op.Purge? && p.queue.rows[id].status == Succeeded
  {
    if act.Finish? || act.Abort? {
      assert Backed(p, act.ticket);
    }
  }

  /** In a disciplined run a finished row never changes again; a dead one is never even removed. */
  lemma {:induction false} TerminalForever(p: Protocol, acts: seq<Act>, id: JobId)
    requires Inv(p) && Behaves(p, acts)
    requires id in p.queue.rows && Terminal(p.queue.rows[id])
    ensures p.queue.rows[id].status == Dead ==> !Purged(p, acts, id)
    ensures !Purged(p, acts, id) ==> id in After(p, acts).queue.rows && After(p, acts).queue.rows[id] == p.queue.rows[id]
    decreases |acts|
  {
    if acts != [] {
      TerminalStep(p, acts[0], id);
      StepKeeps(p, acts[0]);
      var q := Perform(p, acts[0]);
      if id in q.queue.rows {
        TerminalForever(q, acts[1..], id);
      }
    }
  }

  /** Fail and Complete carry no guard of their own: on a terminal row each keeps the status in exactly one case. */
  lemma UnguardedOnTerminal(j: Job, cause: string, backoff: int, now: int)
    requires JobOk(j) && Terminal(j)
    ensures CompletedJob(j, now).status == j.status <==> j.status == Succeeded
    ensures FailedJob(j, cause, backoff, now).status == j.status <==> j.status == Dead
    ensures j.status == Succeeded && j.attempts < j.maxAttempts ==>
      Eligible(FailedJob(j, cause, backoff, now), j.queue, now + Interval(backoff))
  {}
}
