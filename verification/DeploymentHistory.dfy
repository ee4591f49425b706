/**
  The deployment row and its timeline told once more, from the operations on it
  that went through: each field is what the last of them that writes it said.
 */
module DeploymentHistory {
  import opened Common
  import opened DeploymentRecord

  /** Operations of one deployment that went through, oldest first. */
  type History = seq<Op>

  ghost predicate Story(h: History) { h != [] && h[0].kind.Create? && forall k :: 1 <= k < |h| ==> !h[k].kind.Create? }

  ghost function Last<T>(h: History, says: Op -> Option<T>): Option<T> {
    if h == [] then None
    else if says(h[|h| - 1]).Some? then says(h[|h| - 1])
    else Last(h[..|h| - 1], says)
  }

  ghost function First<T>(h: History, says: Op -> Option<T>): Option<T> {
    if h == [] then None
    else if First(h[..|h| - 1], says).Some? then First(h[..|h| - 1], says)
    else says(h[|h| - 1])
  }

  // ------------------------------------------------ what an operation says of a field

  ghost function Image(op: Op): Option<string> {
    match op.kind
    case Create(_, imageTag, _, _) => Some(imageTag)
    case BuildComplete(b) => Some(b.imageTag)
    case DeployComplete(d) => if d.imageTag != "" then Some(d.imageTag) else None
    case _ => None
  }

  ghost function Runtime(op: Op): Option<string> {
    match op.kind
    case Create(_, _, runtime, _) => Some(runtime)
    case BuildComplete(b) => Some(b.runtime)
    case _ => None
  }

  ghost function Reason(op: Op): Option<string> {
    match op.kind
    case Create(_, _, _, _) => Some("")
    case UpdateStatus(_, _, reason) => if reason != "" then Some(reason) else None
    case BuildFailed(reason, _) => Some(reason)
    case DeployFailed(reason, _) => Some(reason)
    case _ => None
  }

  ghost function BuildTime(op: Op): Option<int> {
    match op.kind
    case BuildComplete(b) => Some(b.ms)
    case BuildFailed(_, ms) => Some(ms)
    case _ => None
  }

  ghost function DeployTime(op: Op): Option<int> {
    match op.kind
    case DeployComplete(d) => Some(d.ms)
    case DeployFailed(_, ms) => Some(ms)
    case MarkRolledBack(ms) => Some(ms)
    case _ => None
  }

  ghost function Label(op: Op, key: string): Option<string> {
    var m := match op.kind
             case Create(_, _, _, metadata) => metadata
             case BuildComplete(b) => b.metadata
             case DeployComplete(d) => d.metadata
             case _ => map[];
    if key in m then Some(m[key]) else None
  }

  /** The status is set in so many words. */
  ghost predicate Sets(op: Op, s: Status) {
    (op.kind.UpdateStatus? && op.kind.to == s) || (op.kind.Create? && op.kind.status == Some(s))
  }

  ghost function Start(op: Op): Option<int> {
    if op.kind.UpdateStatus? && (Sets(op, Queued) || Sets(op, Building)) then Some(op.now) else None
  }

  ghost function Finish(op: Op): Option<int> {
    if op.kind.BuildFailed? || op.kind.DeployComplete? || op.kind.DeployFailed? || op.kind.MarkRolledBack?
       || (op.kind.UpdateStatus? && (Sets(op, Live) || Sets(op, Failed) || Sets(op, Cancelled) || Sets(op, RolledBack)))
    then Some(op.now) else None
  }

  /** The status is the last operation's. */
  ghost predicate StatusIs(s: Status, last: Op) {
    && (s == Pending <==> Sets(last, Pending) || (last.kind.Create? && last.kind.status == None))
    && (s == Status.Built <==> Sets(last, Status.Built) || last.kind.BuildComplete?)
    && (s == Live <==> Sets(last, Live) || last.kind.DeployComplete?)
    && (s == Failed <==> Sets(last, Failed) || last.kind.BuildFailed? || last.kind.DeployFailed?)
    && (s == RolledBack <==> Sets(last, RolledBack) || last.kind.MarkRolledBack?)
    && (last.kind.UpdateStatus? ==> s == last.kind.to)
    && (last.kind.Create? && last.kind.status.Some? ==> s == last.kind.status.value)
  }

  ghost predicate TellsRow(d: Deployment, h: History) {
    && Story(h)
    && d.org == h[0].org && d.createdAt == h[0].now && d.updatedAt == h[|h| - 1].now && StatusIs(d.status, h[|h| - 1])
    && Some(d.imageTag) == Last(h, Image) && Some(d.runtime) == Last(h, Runtime) && Some(d.failureReason) == Last(h, Reason)
    && d.buildMs == Last(h, BuildTime) && d.deployMs == Last(h, DeployTime)
    && d.startedAt == First(h, Start) && d.finishedAt == Last(h, Finish)
  }

  ghost predicate TellsLabels(d: Deployment, h: History) {
    forall key :: (if key in d.metadata then Some(d.metadata[key]) else None) == Last(h, op => Label(op, key))
  }

  /** One entry per operation, with its transaction's time, its status and its own words. */
  ghost predicate TellsEntry(e: Entry, op: Op) {
    && e.deployment == op.id && e.at == op.txStart && StatusIs(e.status, op)
    && match op.kind
       case Create(_, _, _, _) => e.message == "deployment created"
       case UpdateStatus(_, message, _) => e.message == message
       case BuildComplete(_) => e.message == "build completed"
       case BuildFailed(reason, _) => e.message == reason
       case DeployComplete(_) => e.message == "deployment live"
       case DeployFailed(reason, _) => e.message == reason
       case MarkRolledBack(_) => e.message == "rollback completed"
  }

  ghost predicate TellsTimeline(es: seq<Entry>, h: History) {
    |es| == |h| && forall k :: 0 <= k < |h| ==> TellsEntry(es[k], h[k])
  }

  // --------------------------------------------------------------------- which go through

  /** What stands in the way of a further operation: another organisation, or an outcome that does not fit the status. */
  ghost predicate GoesThrough(h: History, op: Op) {
    if op.kind.Create? then h == []
    else
      && h != [] && op.org == h[0].org
      && var last := h[|h| - 1];
      && (op.kind.BuildComplete? || op.kind.DeployComplete? ==>
            !Sets(last, Cancelled) && !Sets(last, Failed) && !last.kind.BuildFailed? && !last.kind.DeployFailed?)
      && (op.kind.BuildFailed? || op.kind.DeployFailed? ==> !Sets(last, Cancelled) && !Sets(last, Live) && !last.kind.DeployComplete?)
  }

  ghost function Told(h: History, ops: seq<Op>, id: Id): History
    decreases |ops|
  {
    if ops == [] then h
    else Told(if ops[0].id == id && GoesThrough(h, ops[0]) then h + [ops[0]] else h, ops[1..], id)
  }

  ghost predicate Agrees(s: State, h: History, id: Id) {
    && (id in s.rows <==> h != [])
    && (id in s.rows ==> TellsRow(s.rows[id], h) && TellsLabels(s.rows[id], h))
    && TellsTimeline(Of(s.events, id), h)
  }

  lemma LastGrows<T>(h: History, op: Op, says: Op -> Option<T>)
    ensures Last(h + [op], says) == if says(op).Some? then says(op) else Last(h, says)
    ensures First(h + [op], says) == if First(h, says).Some? then First(h, says) else says(op)
  {
    assert (h + [op])[..|h|] == h;
  }

  lemma CreatedTells(op: Op)
    requires op.kind.Create?
    ensures TellsRow(Created(op), [op]) && TellsLabels(Created(op), [op])
  {
    assert [op][..0] == [];
    assert forall key :: Last([op], o => Label(o, key)) == Label(op, key);
  }

  lemma ChangedTells(d: Deployment, h: History, op: Op)
    requires TellsRow(d, h) && !op.kind.Create?
    ensures TellsRow(Changed(d, op), h + [op])
  {
    LastGrows(h, op, Image);
    LastGrows(h, op, Runtime);
    LastGrows(h, op, Reason);
    LastGrows(h, op, BuildTime);
    LastGrows(h, op, DeployTime);
    LastGrows(h, op, Start);
    LastGrows(h, op, Finish);
    hide Last, First;
  }

  lemma ChangedLabels(d: Deployment, h: History, op: Op)
    requires TellsLabels(d, h) && !op.kind.Create?
    ensures TellsLabels(Changed(d, op), h + [op])
  {
    var e := Changed(d, op);
    forall key ensures (if key in e.metadata then Some(e.metadata[key]) else None) == Last(h + [op], o => Label(o, key)) {
      LastGrows(h, op, o => Label(o, key));
      assert (if key in d.metadata then Some(d.metadata[key]) else None) == Last(h, o => Label(o, key));
      hide Last;
    }
  }

  lemma AcceptedWhen(s: State, h: History, op: Op, id: Id)
    requires Agrees(s, h, id) && op.id == id
    ensures Accepts(s, op) <==> GoesThrough(h, op)
  {
    hide Last, First, Of, TellsEntry, TellsLabels;
  }

  lemma EntryTells(op: Op)
    ensures TellsEntry(EntryOf(op), op)
  {}

  lemma TimelineTells(es: seq<Entry>, h: History, op: Op)
    requires TellsTimeline(es, h)
    ensures TellsTimeline(es + [EntryOf(op)], h + [op])
  {
    EntryTells(op);
    hide TellsEntry, EntryOf;
  }

  lemma RowTells(s: State, h: History, op: Op)
    requires Agrees(s, h, op.id) && Accepts(s, op)
    ensures var d := Apply(s, op).rows[op.id]; TellsRow(d, h + [op]) && TellsLabels(d, h + [op])
  {
    if op.kind.Create? {
      CreatedTells(op);
      assert h + [op] == [op];
    } else {
      ChangedTells(s.rows[op.id], h, op);
      ChangedLabels(s.rows[op.id], h, op);
    }
  }

  lemma StepTells(s: State, h: History, op: Op, id: Id)
    requires Agrees(s, h, id)
    ensures Agrees(Apply(s, op), if op.id == id && GoesThrough(h, op) then h + [op] else h, id)
  {
    if op.id == id { AcceptedWhen(s, h, op, id); }
    if Accepts(s, op) {
      OfSnoc(s.events, EntryOf(op), id);
      if op.id == id {
        RowTells(s, h, op);
        TimelineTells(Of(s.events, id), h, op);
      } else {
        assert Of(s.events, id) + [] == Of(s.events, id);
      }
      hide TellsRow, TellsLabels, TellsTimeline, Accepts, GoesThrough, EntryOf, Changed, Created, Of;
    }
  }

  /** In every run, row, metadata and timeline are exactly what the operations that went through say. */
  lemma {:induction false} AsTold(s: State, ops: seq<Op>, id: Id, h: History)
    requires Agrees(s, h, id)
    ensures Agrees(Exec(s, ops), Told(h, ops, id), id)
    decreases |ops|
  {
    if ops != [] {
      StepTells(s, h, ops[0], id);
      hide Agrees, Apply, GoesThrough;
      AsTold(Apply(s, ops[0]), ops[1..], id, if ops[0].id == id && GoesThrough(h, ops[0]) then h + [ops[0]] else h);
    }
  }

  /**
    A deployment is ready to deploy exactly when its last operation completed the
    build or set built or rolling_back, and the last of its images is not empty.
   */
  lemma ReadyExactly(ops: seq<Op>, id: Id)
    requires id in Exec(EMPTY, ops).rows
    ensures var h := Told([], ops, id);
            && h != []
            && var last := h[|h| - 1];
            Ready(Exec(EMPTY, ops).rows[id]) <==>
              && (last.kind.BuildComplete? || Sets(last, Status.Built) || Sets(last, RollingBack))
              && Last(h, Image).Some? && Last(h, Image).value != ""
  {
    hide *;
    NothingYet(id);
    AsTold(EMPTY, ops, id, []);
    ReadyTold(Exec(EMPTY, ops), Told([], ops, id), id);
  }

  lemma NothingYet(id: Id)
    ensures Agrees(EMPTY, [], id)
  {}

  lemma ReadyTold(s: State, h: History, id: Id)
    requires Agrees(s, h, id) && id in s.rows
    ensures h != []
    ensures var last := h[|h| - 1];
            Ready(s.rows[id]) <==>
              && (last.kind.BuildComplete? || Sets(last, Status.Built) || Sets(last, RollingBack))
              && Last(h, Image).Some? && Last(h, Image).value != ""
  {
    hide Last, First, Of, TellsEntry, TellsLabels, TellsTimeline, Exec, Told;
  }

  lemma {:induction false} Untouched(s: State, ops: seq<Op>, id: Id)
    requires id in s.rows && forall op :: op in ops ==> op.id != id
    ensures id in Exec(s, ops).rows && Exec(s, ops).rows[id] == s.rows[id]
    decreases |ops|
  {
    if ops != [] {
      assert ops[0] in ops && forall op :: op in ops[1..] ==> op in ops;
      Untouched(Apply(s, ops[0]), ops[1..], id);
    }
  }

  /** So a build completing with an image leaves its deployment ready, with that image, until it is next touched: unless cancelled or failed before. */
  lemma BuiltIsReady(s: State, op: Op, later: seq<Op>)
    requires op.id in s.rows && s.rows[op.id].org == op.org && s.rows[op.id].status != Cancelled && s.rows[op.id].status != Failed
    requires op.kind.BuildComplete? && op.kind.built.imageTag != "" && forall other :: other in later ==> other.id != op.id
    ensures op.id in Exec(Apply(s, op), later).rows
    ensures var d := Exec(Apply(s, op), later).rows[op.id]; Ready(d) && d.imageTag == op.kind.built.imageTag
  {
    Untouched(Apply(s, op), later, op.id);
  }
}
