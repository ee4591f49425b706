/**
  A repository row told once more, from the writes of it that went through: each
  column is what the last write naming it said, whatever kinds of write are mixed.
 */
module RepositoryHistory {
  import opened Common
  import C = Conditions
  import opened Repository

  datatype Event = Inserted(fields: Fields) | Updated(values: Fields) | Committed(values: Fields) | SoftDeleted

  /** Since the row was inserted, oldest first; [] for a row that is not there. */
  type Events = seq<Event>

  ghost predicate Story(h: Events) { h != [] && h[0].Inserted? && forall k :: 1 <= k < |h| ==> !h[k].Inserted? }

  /** The integer a write gives the version column, if it names it. */
  ghost function VersionNamed(o: Options, values: Fields): Option<int> {
    match o.versionCol
    case None => None
    case Some(c) => if c in values && values[c].Int? then Some(values[c].n) else None
  }

  /** Zero at first, one more with every commit, and what a plain update says that names it. */
  ghost function VersionAfter(o: Options, h: Events): int {
    if h == [] then 0
    else
      match h[|h| - 1]
      case Inserted(_) => 0
      case Updated(values) =>
        (match VersionNamed(o, values) case Some(n) => n case None => VersionAfter(o, h[..|h| - 1]))
      case Committed(_) => VersionAfter(o, h[..|h| - 1]) + 1
      case SoftDeleted => VersionAfter(o, h[..|h| - 1])
  }

  /** What a write says of an ordinary column. */
  ghost function Says(o: Options, e: Event, column: string): Option<C.Value> {
    match e
    case Inserted(fields) => if column in fields then Some(fields[column]) else None
    case Updated(values) => if column in values && o.versionCol != Some(column) then Some(values[column]) else None
    case Committed(values) => if column in values then Some(values[column]) else None
    case SoftDeleted => None
  }

  ghost function Last(o: Options, h: Events, column: string): Option<C.Value> {
    if h == [] then None
    else if Says(o, h[|h| - 1], column).Some? then Says(o, h[|h| - 1], column)
    else Last(o, h[..|h| - 1], column)
  }

  /** Readers and writers find it. */
  ghost predicate Visible(o: Options, h: Events) { h != [] && (o.softDelete ==> SoftDeleted !in h) }

  ghost predicate Tells(o: Options, row: Row, h: Events) {
    && Story(h) && row.version == VersionAfter(o, h) && (row.deleted <==> SoftDeleted in h)
    && forall column :: (if column in row.fields then Some(row.fields[column]) else None) == Last(o, h, column)
  }

  ghost predicate Agree(o: Options, t: Table, id: Id, h: Events) {
    (id in t <==> h != []) && (id in t ==> Tells(o, t[id], h)) && (Live(o, t, id) <==> Visible(o, h))
  }

  /** What op adds to the events of a row; of the world only what the committing client has read matters. */
  ghost function Told(o: Options, h: Events, seen: map<Client, Snapshot>, op: Op, id: Id): Events {
    match op
    case Read(_, _) => h
    case Insert(i, fields) => if i == id && h == [] then [Inserted(fields)] else h
    case Delete(i) => if i == id then [] else h
    case SoftDelete(i) => if i == id && o.softDelete && Visible(o, h) then h + [SoftDeleted] else h
    case PlainUpdate(i, values) =>
      if i == id && Visible(o, h) && values != map[]
         && (o.versionCol.Some? && o.versionCol.value in values ==> VersionNamed(o, values).Some?)
      then h + [Updated(values)] else h
    case Commit(client, values) =>
      if client in seen && seen[client].id == id && Visible(o, h) && values != map[]
         && o.versionCol.Some? && o.versionCol.value !in values && seen[client].row.version == VersionAfter(o, h)
      then h + [Committed(values)] else h
  }

  ghost function History(o: Options, h: Events, w: World, ops: seq<Op>, id: Id): Events
    decreases |ops|
  {
    if ops == [] then h else History(o, Told(o, h, w.seen, ops[0], id), Apply(o, w, ops[0]), ops[1..], id)
  }

  lemma Appended(o: Options, h: Events, e: Event)
    ensures var all := h + [e];
            && (forall column :: Last(o, all, column) == if Says(o, e, column).Some? then Says(o, e, column) else Last(o, h, column))
            && (e.Committed? ==> VersionAfter(o, all) == VersionAfter(o, h) + 1)
            && (e.SoftDeleted? ==> VersionAfter(o, all) == VersionAfter(o, h))
            && (e.Updated? ==> VersionAfter(o, all) == VersionNamed(o, e.values).GetOr(VersionAfter(o, h)))
            && (SoftDeleted in all <==> SoftDeleted in h || e.SoftDeleted?)
            && (Story(h) && !e.Inserted? ==> Story(all))
  {
    assert (h + [e])[..|h|] == h;
  }

  lemma InsertTells(o: Options, t: Table, fields: Fields, id: Id)
    ensures Agree(o, t[id := Row(0, fields, false)], id, [Inserted(fields)])
  {
    Appended(o, [], Inserted(fields));
    var h := [Inserted(fields)];
    assert [] + h == h;
  }

  lemma SoftDeleteTells(o: Options, w: World, id: Id, h: Events)
    requires Agree(o, w.rows, id, h) && id in w.rows
    ensures Agree(o, Apply(o, w, SoftDelete(id)).rows, id, Told(o, h, w.seen, SoftDelete(id), id))
  {
    hide Last, VersionAfter;
    Appended(o, h, SoftDeleted);
  }

  lemma UpdateTells(o: Options, w: World, values: Fields, id: Id, h: Events)
    requires Agree(o, w.rows, id, h) && id in w.rows
    ensures Agree(o, Apply(o, w, PlainUpdate(id, values)).rows, id, Told(o, h, w.seen, PlainUpdate(id, values), id))
  {
    hide Last, VersionAfter;
    Appended(o, h, Updated(values));
  }

  lemma CommitTells(o: Options, w: World, client: Client, values: Fields, id: Id, h: Events)
    requires Agree(o, w.rows, id, h) && id in w.rows
    ensures Agree(o, Apply(o, w, Commit(client, values)).rows, id, Told(o, h, w.seen, Commit(client, values), id))
  {
    hide Last, VersionAfter;
    Appended(o, h, Committed(values));
  }

  lemma StepTells(o: Options, w: World, op: Op, id: Id, h: Events)
    requires Agree(o, w.rows, id, h)
    ensures Agree(o, Apply(o, w, op).rows, id, Told(o, h, w.seen, op, id))
  {
    if op.Insert? && op.id == id && id !in w.rows {
      InsertTells(o, w.rows, op.fields, id);
    } else if id in w.rows {
      match op {
        case SoftDelete(i) => if i == id { SoftDeleteTells(o, w, id, h); }
        case PlainUpdate(i, values) => if i == id { UpdateTells(o, w, values, id, h); }
        case Commit(client, values) => CommitTells(o, w, client, values, id, h);
        case _ =>
      }
    }
  }

  /** In every run, every row is there, is seen, and holds what it holds, exactly as the writes that went through tell. */
  lemma {:induction false} RowsAsTold(o: Options, w: World, ops: seq<Op>, id: Id, h: Events)
    requires Agree(o, w.rows, id, h)
    ensures Agree(o, Exec(o, w, ops).rows, id, History(o, h, w, ops, id))
    decreases |ops|
  {
    if ops != [] {
      StepTells(o, w, ops[0], id, h);
      hide Agree, Apply, Told;
      RowsAsTold(o, Apply(o, w, ops[0]), ops[1..], id, Told(o, h, w.seen, ops[0], id));
    }
  }

  /** A row soft-deleted stays out of sight, whatever is written afterwards, until it is deleted for good. */
  lemma StaysDeleted(o: Options, w: World, ops: seq<Op>, id: Id)
    requires o.softDelete && Live(o, w.rows, id) && forall op :: op in ops ==> op != Delete(id)
    ensures var v := Exec(o, Apply(o, w, SoftDelete(id)), ops);
            id in v.rows && !Live(o, v.rows, id) && v.rows[id] == w.rows[id].(deleted := true)
  {
    NothingWritten(o, Apply(o, w, SoftDelete(id)), ops, id);
  }

  lemma {:induction false} NothingWritten(o: Options, w: World, ops: seq<Op>, id: Id)
    requires id in w.rows && !Live(o, w.rows, id) && forall op :: op in ops ==> op != Delete(id)
    ensures id in Exec(o, w, ops).rows && Exec(o, w, ops).rows[id] == w.rows[id]
    decreases |ops|
  {
    if ops != [] {
      assert ops[0] in ops && forall op :: op in ops[1..] ==> op in ops;
      NothingWritten(o, Apply(o, w, ops[0]), ops[1..], id);
    }
  }
}
