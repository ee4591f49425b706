/** Row operations of the generic repository, and the optimistic-lock protocol on top of them. */
module Repository {
  import opened Common
  import opened Conditions

  type Id = string

  type Fields = map<string, Value>

  /** One row: its version column, its other columns, and whether the soft-delete column is set. */
  datatype Row = Row(version: int, fields: Fields, deleted: bool)

  type Table = map<Id, Row>

  datatype Options = Options(softDelete: bool, versionCol: Option<string>)

  predicate Live(o: Options, t: Table, id: Id) { id in t && (o.softDelete ==> !t[id].deleted) }

  /** The statement is refused when it sets nothing, or sets the version column twice. */
  predicate Refused(o: Options, values: Fields) {
    values == map[] || (o.versionCol.Some? && o.versionCol.value in values)
  }

  predicate Matches(o: Options, t: Table, id: Id, expected: int) { Live(o, t, id) && t[id].version == expected }

  function Bumped(row: Row, values: Fields): Row { row.(version := row.version + 1, fields := row.fields + values) }

  function CommitRows(o: Options, t: Table, id: Id, expected: int, values: Fields): Table {
    if o.versionCol.Some? && !Refused(o, values) && Matches(o, t, id, expected) then t[id := Bumped(t[id], values)] else t
  }

  predicate NamesVersion(o: Options, values: Fields) { o.versionCol.Some? && o.versionCol.value in values }

  /** A plain update sets nothing, or stores something other than an integer as the version. */
  predicate BadUpdate(o: Options, values: Fields) {
    values == map[] || (NamesVersion(o, values) && !values[o.versionCol.value].Int?)
  }

  /** A plain update changes the version only when it names it, and then to any value. */
  function Overwritten(o: Options, row: Row, values: Fields): Row
    requires !BadUpdate(o, values)
  {
    if NamesVersion(o, values)
    then row.(version := values[o.versionCol.value].n, fields := row.fields + (values - {o.versionCol.value}))
    else row.(fields := row.fields + values)
  }

  function UpdateRows(o: Options, t: Table, id: Id, values: Fields): Table {
    if !BadUpdate(o, values) && Live(o, t, id) then t[id := Overwritten(o, t[id], values)] else t
  }

  function SoftDeleteRows(o: Options, t: Table, id: Id): Table {
    if o.softDelete && Live(o, t, id) then t[id := t[id].(deleted := true)] else t
  }

  class Repository {
    const o: Options
    var rows: Table

    constructor (o: Options)
      ensures this.o == o && rows == map[]
    {
      this.o := o;
      rows := map[];
    }

    method GetByID(id: Id) returns (r: Result<Row>)
      ensures r == if Live(o, rows, id) then Ok(rows[id]) else Err(NotFound)
    {
      if id !in rows || (o.softDelete && rows[id].deleted) {
        return Err(NotFound);
      }
      r := Ok(rows[id]);
    }

    method Insert(id: Id, fields: Fields) returns (r: Result<Row>)
      modifies this
      ensures id in old(rows) ==> r == Err(AlreadyExists) && rows == old(rows)
      ensures id !in old(rows) ==> r == Ok(Row(0, fields, false)) && rows == old(rows)[id := Row(0, fields, false)]
    {
      if id in rows {
        return Err(AlreadyExists);
      }
      rows := rows[id := Row(0, fields, false)];
      r := Ok(rows[id]);
    }

    method Update(id: Id, values: Fields) returns (r: Result<Row>)
      modifies this
      ensures rows == UpdateRows(o, old(rows), id, values)
      ensures r == if BadUpdate(o, values) then Err(Internal) else if Live(o, old(rows), id) then Ok(rows[id]) else Err(NotFound)
    {
      if BadUpdate(o, values) {
        return Err(Internal);
      }
      if id !in rows || (o.softDelete && rows[id].deleted) {
        return Err(NotFound);
      }
      var row := rows[id];
      if NamesVersion(o, values) {
        row := row.(version := values[o.versionCol.value].n, fields := row.fields + (values - {o.versionCol.value}));
      } else {
        row := row.(fields := row.fields + values);
      }
      rows := rows[id := row];
      r := Ok(row);
    }

    method UpdateOptimistic(id: Id, expected: int, values: Fields) returns (r: Result<Row>)
      modifies this
      ensures rows == CommitRows(o, old(rows), id, expected, values)
      ensures o.versionCol.None? || Refused(o, values) ==> r == Err(Internal)
      ensures o.versionCol.Some? && !Refused(o, values) ==>
        r == if Matches(o, old(rows), id, expected) then Ok(rows[id]) else Err(Conflict)
    {
      if o.versionCol.None? || values == map[] || o.versionCol.value in values {
        return Err(Internal);
      }
      if id !in rows || rows[id].version != expected || (o.softDelete && rows[id].deleted) {
        return Err(Conflict);
      }
      rows := rows[id := rows[id].(fields := rows[id].fields + values, version := rows[id].version + 1)];
      r := Ok(rows[id]);
    }

    method SoftDelete(id: Id) returns (r: Result<bool>)
      modifies this
      ensures rows == SoftDeleteRows(o, old(rows), id)
      ensures r == if !o.softDelete then Err(Internal) else Ok(Live(o, old(rows), id))
    {
      if !o.softDelete {
        return Err(Internal);
      }
      if id !in rows || rows[id].deleted {
        return Ok(false);
      }
      rows := rows[id := rows[id].(deleted := true)];
      r := Ok(true);
    }

    method Delete(id: Id) returns (found: bool)
      modifies this
      ensures rows == old(rows) - {id} && found == (id in old(rows))
    {
      found := id in rows;
      rows := rows - {id};
    }
  }

  // -------------------------------------------- clients that read, then commit

  type Client = nat

  datatype Snapshot = Snapshot(id: Id, row: Row)

  /** A commit that succeeded: what its client had read, and what it replaced. */
  datatype Win = Win(client: Client, read: Snapshot, replaced: Row, values: Fields)

  datatype World = World(rows: Table, seen: map<Client, Snapshot>, wins: seq<Win>)

  datatype Op =
    | Read(client: Client, id: Id)
    | Commit(client: Client, values: Fields)          // UpdateOptimistic with the version that client read
    | Insert(id: Id, fields: Fields)
    | SoftDelete(id: Id)
    | PlainUpdate(id: Id, values: Fields)
    | Delete(id: Id)

  ghost predicate Wins(o: Options, w: World, op: Op) {
    && op.Commit? && op.client in w.seen && o.versionCol.Some? && !Refused(o, op.values)
    && Matches(o, w.rows, w.seen[op.client].id, w.seen[op.client].row.version)
  }

  ghost function Apply(o: Options, w: World, op: Op): World {
    match op
    case Read(client, id) => if Live(o, w.rows, id) then w.(seen := w.seen[client := Snapshot(id, w.rows[id])]) else w
    case Commit(client, values) =>
      if Wins(o, w, op) then
        var s := w.seen[client];
        w.(rows := CommitRows(o, w.rows, s.id, s.row.version, values), wins := w.wins + [Win(client, s, w.rows[s.id], values)])
      else w
    case Insert(id, fields) => if id in w.rows then w else w.(rows := w.rows[id := Row(0, fields, false)])
    case SoftDelete(id) => w.(rows := SoftDeleteRows(o, w.rows, id))
    case PlainUpdate(id, values) => w.(rows := UpdateRows(o, w.rows, id, values))
    case Delete(id) => w.(rows := w.rows - {id})
  }

  ghost function Exec(o: Options, w: World, ops: seq<Op>): World
    decreases |ops|
  {
    if ops == [] then w else Exec(o, Apply(o, w, ops[0]), ops[1..])
  }

  /** Writers go through the lock, and keys are not freed for reuse. */
  predicate Locked(op: Op) { !op.PlainUpdate? && !op.Delete? }

  /** A snapshot is never newer than its row, and at equal versions it is the row. */
  ghost predicate ReadsOk(w: World) {
    forall c :: c in w.seen ==>
      var s := w.seen[c];
      s.id in w.rows && s.row.version <= w.rows[s.id].version
      && (s.row.version == w.rows[s.id].version ==> s.row.fields == w.rows[s.id].fields)
  }

  ghost predicate WinsOk(wins: seq<Win>) {
    forall i :: 0 <= i < |wins| ==>
      wins[i].replaced.version == wins[i].read.row.version && wins[i].replaced.fields == wins[i].read.row.fields
  }

  ghost function WinsOn(wins: seq<Win>, id: Id): seq<Fields> {
    if wins == [] then []
    else WinsOn(wins[..|wins| - 1], id) + if wins[|wins| - 1].read.id == id then [wins[|wins| - 1].values] else []
  }

  ghost function Merged(fields: Fields, updates: seq<Fields>): Fields {
    if updates == [] then fields else Merged(fields, updates[..|updates| - 1]) + updates[|updates| - 1]
  }

  /** The row has been changed from base by exactly the wins so far. */
  ghost predicate Accounted(base: Row, w: World, id: Id) {
    id in w.rows
    && w.rows[id].version == base.version + |WinsOn(w.wins, id)|
    && w.rows[id].fields == Merged(base.fields, WinsOn(w.wins, id))
  }

  lemma WinsSnoc(wins: seq<Win>, win: Win, id: Id)
    ensures WinsOn(wins + [win], id) == WinsOn(wins, id) + if win.read.id == id then [win.values] else []
  {
    assert (wins + [win])[..|wins|] == wins;
  }

  lemma StepAccounts(o: Options, base: Row, w: World, op: Op, id: Id)
    requires Locked(op) && ReadsOk(w) && WinsOk(w.wins) && Accounted(base, w, id)
    ensures var v := Apply(o, w, op); ReadsOk(v) && WinsOk(v.wins) && Accounted(base, v, id)
  {
    var v := Apply(o, w, op);
    if Wins(o, w, op) {
      var s := w.seen[op.client];
      var win := Win(op.client, s, w.rows[s.id], op.values);
      WinsSnoc(w.wins, win, id);
      if s.id == id {
        var u := WinsOn(w.wins, id);
        assert (u + [op.values])[..|u|] == u;
      } else {
        assert WinsOn(v.wins, id) == WinsOn(w.wins, id);
      }
    }
  }

  lemma {:induction false} RunAccounts(o: Options, base: Row, w: World, ops: seq<Op>, id: Id)
    requires (forall i :: 0 <= i < |ops| ==> Locked(ops[i])) && ReadsOk(w) && WinsOk(w.wins) && Accounted(base, w, id)
    ensures var v := Exec(o, w, ops); WinsOk(v.wins) && Accounted(base, v, id)
    decreases |ops|
  {
    if ops != [] {
      StepAccounts(o, base, w, ops[0], id);
      RunAccounts(o, base, Apply(o, w, ops[0]), ops[1..], id);
    }
  }

  /** The fields of the first insert of the key. */
  ghost function FirstInsert(ops: seq<Op>, id: Id): Option<Fields> {
    if ops == [] then None
    else if ops[0].Insert? && ops[0].id == id then Some(ops[0].fields)
    else FirstInsert(ops[1..], id)
  }

  /** The row the key starts from: the one already there, or the one inserted first. */
  ghost function Base(start: Table, ops: seq<Op>, id: Id): Option<Row> {
    if id in start then Some(start[id])
    else match FirstInsert(ops, id) case None => None case Some(fields) => Some(Row(0, fields, false))
  }

  lemma StepUnborn(o: Options, w: World, op: Op, id: Id)
    requires Locked(op) && ReadsOk(w) && WinsOk(w.wins) && id !in w.rows && WinsOn(w.wins, id) == []
    ensures var v := Apply(o, w, op);
            && ReadsOk(v) && WinsOk(v.wins) && WinsOn(v.wins, id) == []
            && (if op.Insert? && op.id == id then Accounted(Row(0, op.fields, false), v, id) else id !in v.rows)
  {
    if Wins(o, w, op) {
      var s := w.seen[op.client];
      WinsSnoc(w.wins, Win(op.client, s, w.rows[s.id], op.values), id);
    }
  }

  lemma {:induction false} RunUnborn(o: Options, w: World, ops: seq<Op>, id: Id)
    requires (forall i :: 0 <= i < |ops| ==> Locked(ops[i])) && ReadsOk(w) && WinsOk(w.wins)
    requires id !in w.rows && WinsOn(w.wins, id) == []
    ensures var v := Exec(o, w, ops);
            && WinsOk(v.wins)
            && match FirstInsert(ops, id)
               case None => id !in v.rows && WinsOn(v.wins, id) == []
               case Some(fields) => Accounted(Row(0, fields, false), v, id)
    decreases |ops|
  {
    if ops != [] {
      StepUnborn(o, w, ops[0], id);
      hide Apply, Accounted, ReadsOk, WinsOn;
      if ops[0].Insert? && ops[0].id == id {
        RunAccounts(o, Row(0, ops[0].fields, false), Apply(o, w, ops[0]), ops[1..], id);
      } else {
        RunUnborn(o, Apply(o, w, ops[0]), ops[1..], id);
      }
    }
  }

  /**
    No lost update: however clients interleave, for every key, whether there
    from the start or inserted on the way, the version counts the successes,
    every success replaced exactly what its client had read, and the row holds
    all the successful updates, in order.
   */
  lemma NoLostUpdate(o: Options, start: Table, ops: seq<Op>, id: Id)
    requires forall i :: 0 <= i < |ops| ==> Locked(ops[i])
    ensures var v, base := Exec(o, World(start, map[], []), ops), Base(start, ops, id);
            && WinsOk(v.wins)
            && (id in v.rows <==> base.Some?)
            && (base.None? ==> WinsOn(v.wins, id) == [])
            && (base.Some? ==> v.rows[id].version == base.value.version + |WinsOn(v.wins, id)|
                               && v.rows[id].fields == Merged(base.value.fields, WinsOn(v.wins, id)))
  {
    if id in start {
      RunAccounts(o, start[id], World(start, map[], []), ops, id);
    } else {
      RunUnborn(o, World(start, map[], []), ops, id);
    }
  }

  // ------------------------------------------------ writers outside the protocol

  /** Every client whose version is the row's has read the row's fields. */
  ghost predicate Agrees(w: World) {
    forall c :: c in w.seen && w.seen[c].id in w.rows && w.seen[c].row.version == w.rows[w.seen[c].id].version ==>
      w.seen[c].row.fields == w.rows[w.seen[c].id].fields
  }

  /** Some client has read that version of the row. */
  ghost predicate Held(w: World, id: Id, version: int) {
    exists c :: c in w.seen && w.seen[c].id == id && w.seen[c].row.version == version
  }

  /** Some client has read that version of the row with other fields. */
  ghost predicate Clashes(w: World, id: Id, version: int, fields: Fields) {
    exists c :: c in w.seen && w.seen[c].id == id && w.seen[c].row.version == version && w.seen[c].row.fields != fields
  }

  /**
    What a writer can check beforehand. A plain update keeping the version: it
    changes nothing, or nobody holds the version it leaves in place. A write
    giving the row a version it did not have: nobody holds that version with
    other fields.
   */
  ghost predicate Safe(o: Options, w: World, op: Op) {
    match op
    case PlainUpdate(id, values) =>
      if BadUpdate(o, values) || !Live(o, w.rows, id) then true
      else if NamesVersion(o, values) then
        var row := Overwritten(o, w.rows[id], values);
        !Clashes(w, id, row.version, row.fields)
      else w.rows[id].fields + values == w.rows[id].fields || !Held(w, id, w.rows[id].version)
    case Insert(id, fields) => id in w.rows || !Clashes(w, id, 0, fields)
    case Commit(client, values) =>
      Wins(o, w, op) ==>
        var row := Bumped(w.rows[w.seen[client].id], values);
        !Clashes(w, w.seen[client].id, row.version, row.fields)
    case _ => true
  }

  /** One row rewritten: agreement survives iff nobody holds its new version with other fields. */
  lemma RowRewritten(w: World, v: World, id: Id)
    requires Agrees(w) && v.seen == w.seen && id in v.rows
    requires forall k :: k != id ==> (k in v.rows <==> k in w.rows) && (k in v.rows ==> v.rows[k] == w.rows[k])
    ensures Agrees(v) <==> !Clashes(w, id, v.rows[id].version, v.rows[id].fields)
  {
    if !Clashes(w, id, v.rows[id].version, v.rows[id].fields) {
      forall c | c in v.seen && v.seen[c].id in v.rows && v.seen[c].row.version == v.rows[v.seen[c].id].version
        ensures v.seen[c].row.fields == v.rows[v.seen[c].id].fields
      {}
    }
  }

  /** When the version stays, nobody holding it clashes iff nothing changed or nobody holds it. */
  lemma VersionKept(w: World, id: Id, fields: Fields)
    requires Agrees(w) && id in w.rows
    ensures Clashes(w, id, w.rows[id].version, fields) <==> fields != w.rows[id].fields && Held(w, id, w.rows[id].version)
  {
    if Held(w, id, w.rows[id].version) {
      var c :| c in w.seen && w.seen[c].id == id && w.seen[c].row.version == w.rows[id].version;
      assert w.seen[c].row.fields == w.rows[id].fields;
    }
  }

  /** A step keeps readers and rows in agreement if and only if it is safe. */
  lemma SafeExactly(o: Options, w: World, op: Op)
    requires Agrees(w)
    ensures Agrees(Apply(o, w, op)) <==> Safe(o, w, op)
  {
    var v := Apply(o, w, op);
    match op {
      case PlainUpdate(id, values) =>
        if !BadUpdate(o, values) && Live(o, w.rows, id) {
          RowRewritten(w, v, id);
          VersionKept(w, id, v.rows[id].fields);
        }
      case Insert(id, fields) =>
        if id !in w.rows { RowRewritten(w, v, id); }
      case Commit(client, values) =>
        if Wins(o, w, op) { RowRewritten(w, World(v.rows, v.seen, w.wins), w.seen[client].id); }
      case SoftDelete(id) =>
        if o.softDelete && Live(o, w.rows, id) {
          RowRewritten(w, v, id);
          VersionKept(w, id, v.rows[id].fields);
        }
      case _ =>
    }
  }

  /** Safety is exactly what keeps the next commit honest: after an unsafe step, and only then, some client can overwrite what it never read. */
  lemma UnsafeLosesUpdate(o: Options, w: World, op: Op, values: Fields)
    requires Agrees(w) && o.versionCol.Some? && !Refused(o, values)
    ensures var v := Apply(o, w, op);
            Safe(o, w, op) <==>
              forall c :: Wins(o, v, Commit(c, values)) ==> v.rows[v.seen[c].id].fields == v.seen[c].row.fields
  {
    var v := Apply(o, w, op);
    SafeExactly(o, w, op);
    if !Agrees(v) {
      var c :| c in v.seen && v.seen[c].id in v.rows && v.seen[c].row.version == v.rows[v.seen[c].id].version
               && v.seen[c].row.fields != v.rows[v.seen[c].id].fields;
      assert Wins(o, v, Commit(c, values));
    }
  }

  ghost predicate SafeRun(o: Options, w: World, ops: seq<Op>)
    decreases |ops|
  {
    ops == [] || (Safe(o, w, ops[0]) && SafeRun(o, Apply(o, w, ops[0]), ops[1..]))
  }

  lemma {:induction false} SafeRunKeeps(o: Options, w: World, ops: seq<Op>)
    requires Agrees(w) && WinsOk(w.wins) && SafeRun(o, w, ops)
    ensures Agrees(Exec(o, w, ops)) && WinsOk(Exec(o, w, ops).wins)
    decreases |ops|
  {
    if ops != [] {
      SafeExactly(o, w, ops[0]);
      SafeRunKeeps(o, Apply(o, w, ops[0]), ops[1..]);
    }
  }

  /** In every run of safe steps, plain updates, deletes and inserts included, each success replaced what its client had read. */
  lemma SafeWritersLoseNothing(o: Options, start: Table, ops: seq<Op>)
    requires SafeRun(o, World(start, map[], []), ops)
    ensures WinsOk(Exec(o, World(start, map[], []), ops).wins)
  {
    SafeRunKeeps(o, World(start, map[], []), ops);
  }

  lemma RunThree(o: Options, w: World, a: Op, b: Op, c: Op)
    ensures Exec(o, w, [a, b, c]) == Apply(o, Apply(o, Apply(o, w, a), b), c)
  {
    assert [a, b, c][1..] == [b, c] && [b, c][1..] == [c] && [c][1..] == [];
    var w1 := Apply(o, w, a);
    var w2 := Apply(o, w1, b);
    assert Exec(o, Apply(o, w2, c), []) == Apply(o, w2, c);
    assert Exec(o, w2, [c]) == Apply(o, w2, c);
    assert Exec(o, w1, [b, c]) == Exec(o, w2, [c]);
  }

  /** A plain update between the read and the commit goes unnoticed, since it does not move the version. */
  lemma PlainUpdateIsLost(o: Options, start: Table, id: Id, between: Fields, values: Fields)
    requires Live(o, start, id) && o.versionCol.Some? && !Refused(o, values)
    requires !NamesVersion(o, between) && start[id].fields + between != start[id].fields
    ensures var v := Exec(o, World(start, map[], []), [Read(0, id), PlainUpdate(id, between), Commit(0, values)]);
            |v.wins| == 1 && !WinsOk(v.wins)
  {
    RunThree(o, World(start, map[], []), Read(0, id), PlainUpdate(id, between), Commit(0, values));
    assert start[id].fields + map[] == start[id].fields;
    var v := Exec(o, World(start, map[], []), [Read(0, id), PlainUpdate(id, between), Commit(0, values)]);
    assert v.wins[0].replaced.fields == start[id].fields + between && v.wins[0].read.row == start[id];
  }

  /** Deleting the row and inserting its key again resets the version, and an old read commits onto the new row. */
  lemma ReinsertIsLost(o: Options, start: Table, id: Id, fields: Fields, values: Fields)
    requires Live(o, start, id) && start[id].version == 0 && o.versionCol.Some? && !Refused(o, values) && fields != start[id].fields
    ensures var v := Exec(o, World(start, map[], []), [Read(0, id), Delete(id), Insert(id, fields)] + [Commit(0, values)]);
            |v.wins| == 1 && !WinsOk(v.wins)
  {
    var w := World(start, map[], []);
    var ops := [Read(0, id), Delete(id), Insert(id, fields)];
    RunThree(o, w, ops[0], ops[1], ops[2]);
    ExecSnoc(o, w, ops, Commit(0, values));
    var u := Exec(o, w, ops);
    assert u.rows[id] == Row(0, fields, false);
    assert Wins(o, u, Commit(0, values));
    assert Apply(o, u, Commit(0, values)).wins[0].replaced.fields == fields;
  }

  lemma {:induction false} ExecSnoc(o: Options, w: World, ops: seq<Op>, op: Op)
    ensures Exec(o, w, ops + [op]) == Apply(o, Exec(o, w, ops), op)
    decreases |ops|
  {
    if ops == [] {
      assert ([] + [op])[1..] == [];
      assert [] + [op] == [op];
      assert Exec(o, Apply(o, w, op), []) == Apply(o, w, op);
    } else {
      assert (ops + [op])[1..] == ops[1..] + [op];
      ExecSnoc(o, Apply(o, w, ops[0]), ops[1..], op);
    }
  }
}
