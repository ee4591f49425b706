/** Whole statements: which row a WHERE picks, what a SET assigns, and where each argument goes. */
module Queries {
  import opened Common
  import opened Text
  import opened Order
  import opened Conditions
  import opened ConditionMeaning
  import opened ConditionRoundTrip
  import opened Statements
  import W = WhereReader

  // ------------------------------------- conjunctions written without parens

  ghost predicate Leafy(t: Tree) { (t.Leaf? || t.Null? || t.Member?) && Columns(t, W.Identifier) }

  ghost predicate LeafyAll(ts: seq<Tree>) { forall i :: 0 <= i < |ts| ==> Leafy(ts[i]) }

  lemma {:induction false} LeafyClean(ts: seq<Tree>)
    requires LeafyAll(ts)
    ensures CleanAll(ts)
  {
    if ts != [] {
      LeafyClean(ts[1..]);
    }
  }

  ghost function ChainTail(ts: seq<Tree>, n: nat): string {
    if ts == [] then "" else " AND " + (Numbered(ts[0], n) + ChainTail(ts[1..], n + Width(ts[0])))
  }

  ghost function Chain(ts: seq<Tree>, n: nat): string
    requires ts != []
  {
    Numbered(ts[0], n) + ChainTail(ts[1..], n + Width(ts[0]))
  }

  /** What may follow a test in a chain. */
  ghost predicate Follows(rest: string) { rest == "" || StartsWith(rest, " AND ") }

  lemma ReadBareLeaf(t: Tree, n: nat, rest: string)
    requires Leafy(t) && Tight(t) && Follows(rest)
    ensures W.ReadPrimary(Numbered(t, n) + rest) == Some((ToSql(t, n), rest))
  {
    hide W.ReadAtom, Numbered, W.ReadMark, W.ReadMarks, W.ReadOp, Itoa;
    assert rest == "" || rest[0] == ' ' by {
      if rest != "" { assert rest[..5][0] == rest[0]; }
    }
    match t {
      case Leaf(op, col, val) =>
        NumberedLeaf(op, col, val, n);
        ReadLeaf(op, col, n, rest);
        assert |Numbered(t, n)| >= |col| > 0;
      case Null(col) =>
        NumberedNull(col, n);
        ReadNull(col, rest);
        assert |Numbered(t, n)| >= |col| > 0;
      case Member(col, vals) =>
        if vals == [] {
          NumberedFalse(col, n);
          ReadFalseThen(rest);
        } else {
          NumberedMember(col, vals, n);
          ReadMember(col, n, |vals|, rest);
          assert |Numbered(t, n)| >= |col| > 0;
        }
    }
    AtomIsPrimary(Numbered(t, n) + rest, ToSql(t, n), rest);
  }

  lemma ReadFalseThen(rest: string)
    requires Follows(rest)
    ensures W.ReadAtom("FALSE" + rest) == Some((W.False, rest))
  {
    assert rest == "" || (rest[0] == ' ' && rest[1] == 'A') by {
      if rest != "" { assert rest[..5][0] == rest[0] && rest[..5][1] == rest[1]; }
    }
    IdentRunOf("FALSE", rest);
    if rest != "" {
      Differs(rest, " IN (", 1);
      Differs(rest, " IS NULL", 1);
      Differs(rest, " = ", 1);
      Differs(rest, " <> ", 1);
      Differs(rest, " > ", 1);
      Differs(rest, " < ", 1);
    }
  }

  lemma AtomStart(s: string)
    requires W.ReadAtom(s).Some?
    ensures s != "" && s[0] != '('
  {
    assert W.IdentRun(s) > 0;
    assert s == "" ==> W.IdentRun(s) == 0;
  }

  lemma AtomIsPrimary(s: string, e: W.Sql, rest: string)
    requires W.ReadAtom(s) == Some((e, rest))
    ensures |rest| < |s| ==> W.ReadPrimary(s) == Some((e, rest))
  {
    AtomStart(s);
    hide W.ReadAtom, W.ReadOr, W.IsIdent;
    Differs(s, "(", 0);
  }

  lemma {:induction false} ReadChainTail(terms: seq<W.Sql>, ts: seq<Tree>, n: nat)
    requires terms != [] && LeafyAll(ts) && CleanAll(ts)
    ensures W.ReadAndTail(terms, ChainTail(ts, n)) == Some((Whole(terms + ToSqlAll(ts, n), true), ""))
    ensures Follows(ChainTail(ts, n))
    decreases |ts|
  {
    hide W.ReadAndTail, W.ReadPrimary, Numbered, Compile, Columns, ColumnsAll;
    if ts == [] {
      assert terms + [] == terms;
      AndStop(terms, "");
    } else {
      var e, m := ToSql(ts[0], n), n + Width(ts[0]);
      var tail := ChainTail(ts[1..], m);
      SplitClean(ts);
      ReadChainTail(terms + [e], ts[1..], m);
      ReadBareLeaf(ts[0], n, tail);
      AndStep(terms, Numbered(ts[0], n) + tail, e, tail);
      Drops(" AND ", Numbered(ts[0], n) + tail);
      hide Follows, Tight, StartsWith, Whole;
      OneLonger(terms, e, ToSqlAll(ts[1..], m));
    }
  }

  /** A chain reads as the conjunction of its tests. */
  lemma ReadChain(ts: seq<Tree>, n: nat)
    requires ts != [] && LeafyAll(ts)
    ensures CleanAll(ts) && W.Read(Chain(ts, n)) == Some(ToSql(All(ts), n))
  {
    hide W.ReadAndTail, W.ReadPrimary, Numbered, Compile, Columns, ColumnsAll;
    LeafyClean(ts);
    SplitClean(ts);
    var e, m := ToSql(ts[0], n), n + Width(ts[0]);
    ReadChainTail([e], ts[1..], m);
    ReadBareLeaf(ts[0], n, ChainTail(ts[1..], m));
    assert [e] + ToSqlAll(ts[1..], m) == ToSqlAll(ts, n);
    assert W.ReadAnd(Chain(ts, n)) == Some((ToSql(All(ts), n), ""));
    OrStop([ToSql(All(ts), n)], "");
  }

  // ------------------------------------------------------------ what it means

  function Bind(args: seq<Value>): nat -> Value {
    (k: nat) => if 1 <= k <= |args| then args[k - 1] else Value("")
  }

  ghost function MarksOfSet(items: seq<SetItem>): seq<nat> {
    if items == [] then [] else (if items[0].Assign? then [items[0].mark] else []) + MarksOfSet(items[1..])
  }

  /** Each row is judged as the tree judges it. */
  ghost predicate WhereMeans(where: string, args: seq<Value>, t: Tree) {
    W.Read(where).Some? && forall row :: Some(W.Eval(W.Read(where).value, row, Bind(args))) == Meaning(t, row)
  }

  /** The item gives its column the value meant for it, or is the version bump. */
  ghost predicate ItemMeans(item: SetItem, args: seq<Value>, values: map<string, Value>, bump: Option<string>) {
    match item
    case Assign(col, mark) => col in values && 1 <= mark <= |args| && args[mark - 1] == values[col]
    case Bump(col) => bump == Some(col)
  }

  ghost predicate AssignsTo(items: seq<SetItem>, col: string) { exists i :: 0 <= i < |items| && items[i].Assign? && items[i].col == col }

  /** The items assign exactly the given values (and bump the version), nothing twice. */
  ghost predicate ItemsMean(items: seq<SetItem>, args: seq<Value>, values: map<string, Value>, bump: Option<string>) {
    && (forall i :: 0 <= i < |items| ==> ItemMeans(items[i], args, values, bump))
    && (forall c :: c in values ==> AssignsTo(items, c))
    && (forall i, j :: 0 <= i < j < |items| ==> items[i].col != items[j].col)
    && (bump.Some? ==> exists i :: 0 <= i < |items| && items[i] == Bump(bump.value))
  }

  ghost predicate SetMeans(clause: string, args: seq<Value>, values: map<string, Value>, bump: Option<string>) {
    ReadSet(clause).Some? && ItemsMean(ReadSet(clause).value, args, values, bump)
  }

  /** The two clauses together use the placeholders 1 .. |args|, once each and in order. */
  ghost predicate EachMarkOnce(clause: string, where: string, args: seq<Value>) {
    ReadSet(clause).Some? && W.Read(where).Some?
    && MarksOfSet(ReadSet(clause).value) + MarksOf(W.Read(where).value) == MarkRun(1, |args|)
  }

  lemma ChainMeans(ts: seq<Tree>, before: seq<Value>)
    requires ts != [] && LeafyAll(ts)
    ensures WhereMeans(Chain(ts, |before| + 1), before + Args(CompileAll(ts)), All(ts))
    ensures MarksOf(W.Read(Chain(ts, |before| + 1)).value) == MarkRun(|before| + 1, |Args(CompileAll(ts))|)
  {
    var n := |before| + 1;
    var args := before + Args(CompileAll(ts));
    ReadChain(ts, n);
    TightParts("AND", ts);
    MarksInOrder(All(ts), n);
    assert Binds(Bind(args), n, Compile(All(ts)).args);
    forall row ensures Some(W.Eval(ToSql(All(ts), n), row, Bind(args))) == Meaning(All(ts), row) {
      SameTruth(All(ts), n, row, Bind(args));
    }
  }

  lemma {:induction false} MarksOfAssigns(cols: seq<string>, n: nat)
    ensures MarksOfSet(Assigns(cols, n)) == MarkRun(n, |cols|)
    decreases |cols|
  {
    if cols != [] {
      MarksOfAssigns(cols[1..], n + 1);
    }
  }

  lemma {:induction false} MarksOfBumped(items: seq<SetItem>, version: string)
    ensures MarksOfSet(WithBump(items, version)) == MarksOfSet(items)
  {
    if items != [] {
      MarksOfBumped(items[1..], version);
      assert WithBump(items, version)[1..] == WithBump(items[1..], version);
    } else {
      assert WithBump(items, version) == [Bump(version)];
      assert [Bump(version)][1..] == [];
    }
  }

  ghost function Items(cols: seq<string>, bump: Option<string>): seq<SetItem> {
    Assigns(cols, 1) + if bump.Some? then [Bump(bump.value)] else []
  }

  lemma ItemAt(cols: seq<string>, bump: Option<string>, i: nat)
    requires i < |Items(cols, bump)|
    ensures |Items(cols, bump)| == |cols| + if bump.Some? then 1 else 0
    ensures Items(cols, bump)[i] == if i < |cols| then Assign(cols[i], 1 + i) else Bump(bump.GetOr(""))
  {}

  lemma ItemAtMeans(cols: seq<string>, values: map<string, Value>, more: seq<Value>, bump: Option<string>, i: nat)
    requires (forall k :: 0 <= k < |cols| ==> cols[k] in values) && i < |Items(cols, bump)|
    ensures ItemMeans(Items(cols, bump)[i], Values(cols, values) + more, values, bump)
  {
    ItemAt(cols, bump, i);
    hide Items;
  }

  lemma ItemFor(cols: seq<string>, bump: Option<string>, c: string)
    requires c in cols
    ensures AssignsTo(Items(cols, bump), c)
  {
    var i :| 0 <= i < |cols| && cols[i] == c;
    ItemAt(cols, bump, i);
    hide Items;
    assert Items(cols, bump)[i] == Assign(c, 1 + i);
  }

  lemma ItemsDiffer(cols: seq<string>, bump: Option<string>, i: nat, j: nat)
    requires i < j < |Items(cols, bump)| && (bump.Some? ==> bump.value !in cols)
    requires forall i, j :: 0 <= i < j < |cols| ==> cols[i] != cols[j]
    ensures Items(cols, bump)[i].col != Items(cols, bump)[j].col
  {
    ItemAt(cols, bump, i);
    ItemAt(cols, bump, j);
    hide Items;
  }

  lemma AllItemsMean(cols: seq<string>, values: map<string, Value>, more: seq<Value>, bump: Option<string>)
    requires forall k :: 0 <= k < |cols| ==> cols[k] in values
    ensures var items := Items(cols, bump);
            forall i :: 0 <= i < |items| ==> ItemMeans(items[i], Values(cols, values) + more, values, bump)
  {
    hide Items, Values, ItemMeans;
    forall i | 0 <= i < |Items(cols, bump)| ensures ItemMeans(Items(cols, bump)[i], Values(cols, values) + more, values, bump) {
      ItemAtMeans(cols, values, more, bump, i);
    }
  }

  lemma AllItemsDiffer(cols: seq<string>, bump: Option<string>)
    requires Ascending(cols) && (bump.Some? ==> bump.value !in cols)
    ensures var items := Items(cols, bump); forall i, j :: 0 <= i < j < |items| ==> items[i].col != items[j].col
  {
    AscendingDistinct(cols);
    hide Items, Ascending;
    forall i, j | 0 <= i < j < |Items(cols, bump)| ensures Items(cols, bump)[i].col != Items(cols, bump)[j].col {
      ItemsDiffer(cols, bump, i, j);
    }
  }

  lemma AssignsMean(cols: seq<string>, values: map<string, Value>, more: seq<Value>, bump: Option<string>)
    requires Ascending(cols) && forall c :: c in cols <==> c in values
    requires forall i :: 0 <= i < |cols| ==> cols[i] in values
    requires bump.Some? ==> bump.value !in values
    ensures ItemsMean(Items(cols, bump), Values(cols, values) + more, values, bump)
  {
    if bump.Some? {
      assert Items(cols, bump)[|cols|] == Bump(bump.value);
    }
    hide Items, Values, Ascending, AssignsTo, ItemMeans;
    AllItemsMean(cols, values, more, bump);
    AllItemsDiffer(cols, bump);
    forall c | c in values ensures AssignsTo(Items(cols, bump), c) {
      ItemFor(cols, bump, c);
    }
  }

  /** With a version column the SET list is sound exactly when values does not name that column. */
  lemma BumpedSetMeans(cols: seq<string>, values: map<string, Value>, more: seq<Value>, version: string)
    requires cols != [] && Idents(cols) && Ascending(cols) && W.Identifier(version) && forall c :: c in cols <==> c in values
    requires forall i :: 0 <= i < |cols| ==> cols[i] in values
    ensures var clause := Join(SetParts(cols, 1), ", ") + ", " + (version + " = " + version + " + 1");
            if version in values then ReadSet(clause).None?
            else SetMeans(clause, Values(cols, values) + more, values, Some(version))
                 && MarksOfSet(ReadSet(clause).value) == MarkRun(1, |cols|)
  {
    hide Less, Itoa, Ascending, ReadSet, ItemsMean, MarksOfSet, Values;
    ReadSetBump(cols, 1, version);
    if version !in values {
      AssignsMean(cols, values, more, Some(version));
      MarksOfBumped(Assigns(cols, 1), version);
      MarksOfAssigns(cols, 1);
    }
  }

  // -------------------------------------------------------------- statements

  datatype UpdateSql = UpdateSql(table: string, set': string, where: string, returning: Option<string>) {
    function Render(): string {
      "UPDATE " + table + " SET " + set' + " WHERE " + where
      + (match returning case None => "" case Some(cols) => " RETURNING " + cols)
    }
  }

  ghost predicate ConfigOk(cfg: Config) {
    W.Identifier(cfg.pk) && (cfg.softDelete == "" || W.Identifier(cfg.softDelete)) && (cfg.version == "" || W.Identifier(cfg.version))
  }

  ghost function LiveTests(cfg: Config): seq<Tree> { if cfg.softDelete == "" then [] else [Null(cfg.softDelete)] }

  function LiveClause(cfg: Config): string { if cfg.softDelete == "" then "" else cfg.softDelete + " IS NULL" }

  lemma ChainCons(a: Tree, ts: seq<Tree>, n: nat)
    requires ts != []
    ensures Chain([a] + ts, n) == Numbered(a, n) + " AND " + Chain(ts, n + Width(a))
    ensures Args(CompileAll([a] + ts)) == Compile(a).args + Args(CompileAll(ts))
  {
    hide Numbered, Compile;
    assert ([a] + ts)[1..] == ts;
    Cat3(Numbered(a, n), " AND ", Chain(ts, n + Width(a)));
  }

  lemma ChainOne(a: Tree, n: nat)
    ensures Chain([a], n) == Numbered(a, n) && Args(CompileAll([a])) == Compile(a).args
  {
    hide Numbered, Compile;
    assert [a][1..] == [];
    assert Numbered(a, n) + "" == Numbered(a, n);
    assert Compile(a).args + [] == Compile(a).args;
  }

  /** The tests in order, then the soft-delete test when there is one. */
  lemma LiveChain(a: Tree, cfg: Config, n: nat)
    requires Leafy(a) && ConfigOk(cfg)
    ensures LeafyAll([a] + LiveTests(cfg))
    ensures Chain([a] + LiveTests(cfg), n) == Numbered(a, n) + if cfg.softDelete == "" then "" else " AND " + LiveClause(cfg)
    ensures Args(CompileAll([a] + LiveTests(cfg))) == Compile(a).args
  {
    hide Numbered, Compile;
    if cfg.softDelete == "" {
      assert [a] + [] == [a];
      ChainOne(a, n);
    } else {
      var live := Null(cfg.softDelete);
      ChainCons(a, [live], n);
      ChainOne(live, n + Width(a));
      NumberedNull(cfg.softDelete, n + Width(a));
      NullArgs(cfg.softDelete);
      assert Compile(a).args + [] == Compile(a).args;
      Cat3(Numbered(a, n), " AND ", LiveClause(cfg));
    }
  }

  lemma NullArgs(col: string)
    ensures Compile(Null(col)).args == []
  {}

  /** Arguments are bound after those of the SET list. */
  lemma TestsMean(ts: seq<Tree>, where: string, vals: seq<Value>, args: seq<Value>)
    requires ts != [] && LeafyAll(ts) && where == Chain(ts, |vals| + 1) && args == vals + Args(CompileAll(ts))
    ensures WhereMeans(where, args, All(ts))
    ensures MarksOf(W.Read(where).value) == MarkRun(|vals| + 1, |args| - |vals|)
  {
    ChainMeans(ts, vals);
  }

  lemma OneOfEach(clause: string, where: string, vals: seq<Value>, args: seq<Value>)
    requires ReadSet(clause).Some? && W.Read(where).Some? && |vals| <= |args|
    requires MarksOfSet(ReadSet(clause).value) == MarkRun(1, |vals|)
    requires MarksOf(W.Read(where).value) == MarkRun(|vals| + 1, |args| - |vals|)
    ensures EachMarkOnce(clause, where, args)
  {
    hide ReadSet, W.Read, MarksOfSet, MarksOf, MarkRun;
    MarkRunConcat(1, |vals|, |args| - |vals|);
  }

  ghost function IdTest(cfg: Config, id: Value): Tree { Leaf(OpEq, cfg.pk, id) }

  lemma NumberedEq(col: string, val: Value, n: nat)
    requires W.Identifier(col)
    ensures Numbered(Leaf(OpEq, col, val), n) == col + " = $" + Itoa(n)
    ensures Compile(Leaf(OpEq, col, val)).args == [val]
  {
    hide Itoa;
    NumberedLeaf(OpEq, col, val, n);
    assert " = $" == " = " + "$";
    Cat4(col, " = ", "$", Itoa(n));
    Cat3(col, " = ", "$" + Itoa(n));
  }

  lemma NamedColumns(cols: seq<string>, values: map<string, Value>)
    requires |cols| == |values| && forall c :: c in cols <==> c in values
    requires forall c :: c in values ==> W.Identifier(c)
    ensures Idents(cols) && (cols == [] <==> values == map[])
  {
    if values == map[] {
      assert |values| == 0;
    }
  }

  lemma UpdateSet(cols: seq<string>, values: map<string, Value>, vals: seq<Value>, more: seq<Value>, clause: string)
    requires Ascending(cols) && |cols| == |values| && forall c :: c in cols <==> c in values
    requires forall c :: c in values ==> W.Identifier(c)
    requires (forall i :: 0 <= i < |cols| ==> cols[i] in values) && vals == Values(cols, values)
    requires clause == Join(SetParts(cols, 1), ", ")
    ensures values == map[] ==> ReadSet(clause).None?
    ensures values != map[] ==> SetMeans(clause, vals + more, values, None) && ReadSet(clause).Some? && MarksOfSet(ReadSet(clause).value) == MarkRun(1, |vals|)
  {
    hide Ascending, ItemsMean, ReadSet, ReadItem, Values, MarksOfSet;
    NamedColumns(cols, values);
    if values == map[] {
      NothingRead();
    } else {
      ReadSetList(cols, 1);
      MarksOfAssigns(cols, 1);
      AssignsMean(cols, values, more, None);
      assert Assigns(cols, 1) + [] == Assigns(cols, 1);
    }
  }

  lemma NothingRead()
    ensures ReadItem("") == None && ReadSet("") == None
  {}

  /** Update: the named row, if live, gets exactly the given values. u: the clauses sql is made of. */
  method Update(cfg: Config, id: Value, values: map<string, Value>) returns (sql: string, args: seq<Value>, u: UpdateSql)
    requires ConfigOk(cfg) && forall c :: c in values ==> W.Identifier(c)
    ensures sql == u.Render() && u.table == cfg.table && u.returning == Some(cfg.columns)
    ensures WhereMeans(u.where, args, All([IdTest(cfg, id)] + LiveTests(cfg)))
    ensures values != map[] ==> SetMeans(u.set', args, values, None) && EachMarkOnce(u.set', u.where, args)
    ensures values == map[] ==> ReadSet(u.set').None?
  {
    hide Ascending, Less, SetMeans, WhereMeans, EachMarkOnce, Itoa, W.Identifier, Chain, Numbered, Compile, CompileAll, Args, ReadSet, Values, SetParts, Join;
    var clause, vals, cols := BuildSet(values, 0);
    var next := |vals| + 1;
    var where := cfg.pk + " = $" + Itoa(next);
    args := vals + [id];
    if LiveClause(cfg) != "" {
      where := where + (" AND " + LiveClause(cfg));
    }
    sql := "UPDATE " + cfg.table + " SET " + clause + " WHERE " + where + " RETURNING " + cfg.columns;
    u := UpdateSql(cfg.table, clause, where, Some(cfg.columns));
    Cat5("UPDATE " + cfg.table + " SET " + clause, " WHERE ", where, " RETURNING ", cfg.columns);
    Cat3("UPDATE " + cfg.table + " SET " + clause + " WHERE " + where, " RETURNING ", cfg.columns);
    UpdateWhere(cfg, id, vals, where, args);
    UpdateSet(cols, values, vals, [id], clause);
    if values != map[] {
      OneOfEach(clause, where, vals, args);
    }
  }

  lemma WhereMeansReads(where: string, args: seq<Value>, t: Tree)
    requires WhereMeans(where, args, t)
    ensures W.Read(where).Some?
  {}

  lemma UpdateWhere(cfg: Config, id: Value, vals: seq<Value>, where: string, args: seq<Value>)
    requires ConfigOk(cfg) && args == vals + [id]
    requires where == cfg.pk + " = $" + Itoa(|vals| + 1) + if LiveClause(cfg) == "" then "" else " AND " + LiveClause(cfg)
    ensures WhereMeans(where, args, All([IdTest(cfg, id)] + LiveTests(cfg)))
    ensures W.Read(where).Some? && MarksOf(W.Read(where).value) == MarkRun(|vals| + 1, 1)
  {
    hide Numbered, Compile, Chain, WhereMeans, Itoa;
    NumberedEq(cfg.pk, id, |vals| + 1);
    LiveChain(IdTest(cfg, id), cfg, |vals| + 1);
    TestsMean([IdTest(cfg, id)] + LiveTests(cfg), where, vals, args);
    WhereMeansReads(where, args, All([IdTest(cfg, id)] + LiveTests(cfg)));
  }

  /** UpdateOptimistic: the WHERE also demands the expected version, and the SET bumps it. */
  method UpdateOptimistic(cfg: Config, id: Value, expected: Value, values: map<string, Value>)
    returns (sql: string, args: seq<Value>, u: UpdateSql)
    requires ConfigOk(cfg) && cfg.version != "" && forall c :: c in values ==> W.Identifier(c)
    ensures sql == u.Render() && u.table == cfg.table && u.returning == Some(cfg.columns)
    ensures WhereMeans(u.where, args, All([IdTest(cfg, id), Leaf(OpEq, cfg.version, expected)] + LiveTests(cfg)))
    ensures values == map[] || cfg.version in values ==> ReadSet(u.set').None?
    ensures values != map[] && cfg.version !in values ==>
      SetMeans(u.set', args, values, Some(cfg.version)) && EachMarkOnce(u.set', u.where, args)
  {
    hide Ascending, Less, SetMeans, WhereMeans, EachMarkOnce, Itoa, W.Identifier, Chain, Numbered, Compile, CompileAll, Args, ReadSet, Values, SetParts, Join;
    var clause, vals, cols := BuildSet(values, 0);
    var next := |vals| + 1;
    clause := clause + ", " + (cfg.version + " = " + cfg.version + " + 1");
    var where := cfg.pk + " = $" + Itoa(next) + " AND " + (cfg.version + " = $" + Itoa(next + 1));
    args := vals + [id, expected];
    if LiveClause(cfg) != "" {
      where := where + (" AND " + LiveClause(cfg));
    }
    sql := "UPDATE " + cfg.table + " SET " + clause + " WHERE " + where + " RETURNING " + cfg.columns;
    u := UpdateSql(cfg.table, clause, where, Some(cfg.columns));
    Cat5("UPDATE " + cfg.table + " SET " + clause, " WHERE ", where, " RETURNING ", cfg.columns);
    Cat3("UPDATE " + cfg.table + " SET " + clause + " WHERE " + where, " RETURNING ", cfg.columns);
    OptimisticWhere(cfg, id, expected, vals, where, args);
    OptimisticSet(cfg.version, cols, values, vals, [id, expected], clause);
    if values != map[] && cfg.version !in values {
      OneOfEach(clause, where, vals, args);
    }
  }

  lemma OptimisticWhere(cfg: Config, id: Value, expected: Value, vals: seq<Value>, where: string, args: seq<Value>)
    requires ConfigOk(cfg) && cfg.version != "" && args == vals + [id, expected]
    requires where == cfg.pk + " = $" + Itoa(|vals| + 1) + " AND " + (cfg.version + " = $" + Itoa(|vals| + 2))
                      + if LiveClause(cfg) == "" then "" else " AND " + LiveClause(cfg)
    ensures WhereMeans(where, args, All([IdTest(cfg, id), Leaf(OpEq, cfg.version, expected)] + LiveTests(cfg)))
    ensures W.Read(where).Some? && MarksOf(W.Read(where).value) == MarkRun(|vals| + 1, 2)
  {
    var ts := OptimisticTests(cfg, id, expected);
    OptimisticChain(cfg, id, expected, |vals| + 1);
    hide *;
    assert vals + ([id] + [expected]) == args;
    TestsMean(ts, where, vals, args);
    WhereMeansReads(where, args, All(ts));
  }

  ghost function OptimisticTests(cfg: Config, id: Value, expected: Value): seq<Tree> {
    [IdTest(cfg, id), Leaf(OpEq, cfg.version, expected)] + LiveTests(cfg)
  }

  lemma OptimisticChain(cfg: Config, id: Value, expected: Value, n: nat)
    requires ConfigOk(cfg) && cfg.version != ""
    ensures var ts := OptimisticTests(cfg, id, expected);
            && ts != [] && LeafyAll(ts) && Args(CompileAll(ts)) == [id] + [expected]
            && Chain(ts, n) == cfg.pk + " = $" + Itoa(n) + " AND " + (cfg.version + " = $" + Itoa(n + 1))
                               + if LiveClause(cfg) == "" then "" else " AND " + LiveClause(cfg)
  {
    hide Numbered, Compile, Chain, Itoa, CompileAll, Args;
    var first, second := IdTest(cfg, id), Leaf(OpEq, cfg.version, expected);
    NumberedEq(cfg.pk, id, n);
    NumberedEq(cfg.version, expected, n + 1);
    LiveChain(second, cfg, n + 1);
    ChainCons(first, [second] + LiveTests(cfg), n);
    assert OptimisticTests(cfg, id, expected) == [first] + ([second] + LiveTests(cfg));
    Conjoined(Numbered(first, n), Numbered(second, n + 1), if LiveClause(cfg) == "" then "" else " AND " + LiveClause(cfg));
  }

  lemma Conjoined(one: string, two: string, live: string)
    ensures one + " AND " + two + live == one + (" AND " + (two + live))
    ensures one + " AND " + (two + live) == one + (" AND " + (two + live))
  {}

  lemma OptimisticSet(version: string, cols: seq<string>, values: map<string, Value>, vals: seq<Value>, more: seq<Value>, clause: string)
    requires W.Identifier(version) && Ascending(cols) && |cols| == |values| && forall c :: c in cols <==> c in values
    requires forall c :: c in values ==> W.Identifier(c)
    requires (forall i :: 0 <= i < |cols| ==> cols[i] in values) && vals == Values(cols, values)
    requires clause == Join(SetParts(cols, 1), ", ") + ", " + (version + " = " + version + " + 1")
    ensures values == map[] || version in values ==> ReadSet(clause).None?
    ensures values != map[] && version !in values ==>
      SetMeans(clause, vals + more, values, Some(version)) && ReadSet(clause).Some? && MarksOfSet(ReadSet(clause).value) == MarkRun(1, |vals|)
  {
    hide Ascending, ItemsMean, ReadSet, ReadItem, Values, MarksOfSet;
    NamedColumns(cols, values);
    if values == map[] {
      assert Join(SetParts(cols, 1), ", ") == "";
      LeadingCommaFails(version + " = " + version + " + 1");
    } else {
      BumpedSetMeans(cols, values, more, version);
    }
  }

  lemma LeadingCommaFails(rest: string)
    ensures ReadSet("" + ", " + rest).None?
  {
    assert ("" + ", " + rest)[0] == ',';
    assert ReadItem("" + ", " + rest) == None;
  }

  /** BulkUpdateByIDs: every live row whose key is listed, and no other, gets the given values. */
  method BulkUpdateByIDs(cfg: Config, ids: seq<Value>, values: map<string, Value>)
    returns (sql: string, args: seq<Value>, u: Option<UpdateSql>)
    requires ConfigOk(cfg) && forall c :: c in values ==> W.Identifier(c)
    ensures u.None? <==> ids == [] || values == map[]
    ensures u.Some? ==> sql == u.value.Render() && u.value.table == cfg.table && u.value.returning == None
    ensures u.Some? ==> SetMeans(u.value.set', args, values, None) && EachMarkOnce(u.value.set', u.value.where, args)
    ensures u.Some? ==> WhereMeans(u.value.where, args, All([Member(cfg.pk, ids)] + LiveTests(cfg)))
  {
    hide Ascending, Less, SetMeans, WhereMeans, EachMarkOnce, Itoa, W.Identifier, Chain, Numbered, Compile, CompileAll, Args, ReadSet, Values, SetParts, Join, In, Renumber, Empty;
    if |ids| == 0 || values == map[] {
      return "", [], None;
    }
    var clause, vals, cols := BuildSet(values, 0);
    var where, idArgs := Build(In(cfg.pk, ids), |vals| + 1);
    args := vals + idArgs;
    MemberIsIn(cfg, ids, |vals| + 1);
    if cfg.softDelete != "" {
      where := where + (" AND " + LiveClause(cfg));
    }
    sql := "UPDATE " + cfg.table + " SET " + clause + " WHERE " + where;
    u := Some(UpdateSql(cfg.table, clause, where, None));
    assert sql + "" == sql;
    MemberWhere(cfg, ids, vals, where, args);
    UpdateSet(cols, values, vals, ids, clause);
    OneOfEach(clause, where, vals, args);
  }

  lemma MemberIsIn(cfg: Config, ids: seq<Value>, n: nat)
    requires ConfigOk(cfg) && ids != []
    ensures !Empty(In(cfg.pk, ids)) && In(cfg.pk, ids).args == ids == Compile(Member(cfg.pk, ids)).args
    ensures Renumber(In(cfg.pk, ids).clause, n) == Numbered(Member(cfg.pk, ids), n)
  {
    TightNonEmpty(Member(cfg.pk, ids));
  }

  lemma MemberWhere(cfg: Config, ids: seq<Value>, vals: seq<Value>, where: string, args: seq<Value>)
    requires ConfigOk(cfg) && ids != [] && args == vals + ids
    requires where == Numbered(Member(cfg.pk, ids), |vals| + 1) + if LiveClause(cfg) == "" then "" else " AND " + LiveClause(cfg)
    ensures WhereMeans(where, args, All([Member(cfg.pk, ids)] + LiveTests(cfg)))
    ensures W.Read(where).Some? && MarksOf(W.Read(where).value) == MarkRun(|vals| + 1, |ids|)
  {
    hide Numbered, Compile, Chain, WhereMeans, Itoa, CompileAll, Args;
    MemberIsIn(cfg, ids, |vals| + 1);
    LiveChain(Member(cfg.pk, ids), cfg, |vals| + 1);
    TestsMean([Member(cfg.pk, ids)] + LiveTests(cfg), where, vals, args);
    WhereMeansReads(where, args, All([Member(cfg.pk, ids)] + LiveTests(cfg)));
  }

  // ---------------------------------------------------------------- selects

  /** withLive: the soft-delete test is added, alone when there is nothing to add it to. */
  function WithLive(cfg: Config, cond: Condition): Condition {
    if LiveClause(cfg) == "" then cond
    else if Empty(cond) then Raw(LiveClause(cfg), [])
    else Combined("AND", [cond, Raw(LiveClause(cfg), [])])
  }

  ghost function LiveTree(cfg: Config, t: Tree): Tree {
    if cfg.softDelete == "" then t else if Empty(Compile(t)) then Null(cfg.softDelete) else All([t, Null(cfg.softDelete)])
  }

  lemma TwoColumns(a: Tree, b: Tree)
    requires Columns(a, W.Identifier) && Columns(b, W.Identifier)
    ensures Columns(All([a, b]), W.Identifier)
  {
    assert [a, b][1..] == [b] && [b][1..] == [];
    assert ColumnsAll([b], W.Identifier);
    assert ColumnsAll([a, b], W.Identifier);
  }

  lemma TwoCompiled(a: Tree, b: Tree)
    ensures Compile(All([a, b])) == Combined("AND", [Compile(a), Compile(b)])
  {
    assert [a, b][1..] == [b] && [b][1..] == [];
    assert CompileAll([b]) == [Compile(b)] + CompileAll([]);
    assert CompileAll([a, b]) == [Compile(a)] + CompileAll([b]) == [Compile(a), Compile(b)];
  }

  lemma WithLiveCompiles(cfg: Config, t: Tree)
    ensures WithLive(cfg, Compile(t)) == Compile(LiveTree(cfg, t))
  {
    if cfg.softDelete != "" && !Empty(Compile(t)) {
      TwoCompiled(t, Null(cfg.softDelete));
    }
  }

  /** The condition of a cursor page: the caller's condition and, after the first page, the keyset comparison. */
  ghost function CursorTree(t: Tree, column: string, after: Option<Value>, descending: bool): Tree {
    match after
    case None => t
    case Some(v) => All([t, Leaf(if descending then OpLt else OpGt, column, v)])
  }

  ghost predicate Holds(t: Tree, row: W.Row) { Meaning(t, row).None? || Meaning(t, row) == Some(W.Yes) }

  /** Text, arguments and meaning of a page query. */
  ghost predicate PageMeans(where: string, args: seq<Value>, limitArgs: seq<Value>, t: Tree) {
    && |limitArgs| <= |args| && args[|args| - |limitArgs|..] == limitArgs
    && (where == "" <==> Empty(Compile(t)))
    && (where == "" ==> |args| == |limitArgs|)
    && (where != "" ==> WhereMeans(where, args, t) && MarksOf(W.Read(where).value) == MarkRun(1, |args| - |limitArgs|))
  }

  lemma NumberedNonEmpty(t: Tree, n: nat)
    requires !Empty(Compile(t))
    ensures Numbered(t, n) != ""
  {
    assert Compile(t).clause != "";
  }

  lemma BuildPage(t: Tree, limitArgs: seq<Value>)
    requires Columns(t, W.Identifier)
    ensures Empty(Compile(t)) ==> PageMeans("", limitArgs, limitArgs, t)
    ensures !Empty(Compile(t)) ==> PageMeans(Numbered(t, 1), Compile(t).args + limitArgs, limitArgs, t)
  {
    hide W.Read, W.Eval, Compile;
    if !Empty(Compile(t)) {
      var args := Compile(t).args + limitArgs;
      NumberedNonEmpty(t, 1);
      assert Binds(Bind(args), 1, Compile(t).args);
      forall row: W.Row
        ensures Meaning(t, row).Some? && W.Read(Numbered(t, 1)).Some?
        ensures MarksOf(W.Read(Numbered(t, 1)).value) == MarkRun(1, Width(t))
        ensures Some(W.Eval(W.Read(Numbered(t, 1)).value, row, Bind(args))) == Meaning(t, row)
      {
        BuildMeansTree(t, 1, row, Bind(args));
      }
      var row := W.Row((_, _, _) => W.No, _ => false);
      assert Meaning(t, row).Some? && W.Read(Numbered(t, 1)).Some?;
    }
  }

  /** Paginate: the page query filters by the condition and liveness; its last two arguments are page size and offset. */
  method PaginateSql(cfg: Config, cond: Condition, page: int, pageSize: int, orderBy: string, ghost t: Tree)
    returns (sql: string, args: seq<Value>, ghost where: string)
    requires ConfigOk(cfg) && Columns(t, W.Identifier) && cond == Compile(t)
    ensures PageMeans(where, args, [Int(pageSize), Int((page - 1) * pageSize)], LiveTree(cfg, t))
    ensures |args| >= 2 && sql == "SELECT " + cfg.columns + " FROM " + cfg.table
      + (if where == "" then "" else " WHERE " + where) + (if orderBy == "" then "" else " ORDER BY " + orderBy)
      + (" LIMIT $" + Itoa(|args| - 1) + " OFFSET $" + Itoa(|args|))
  {
    hide Itoa, Compile, Renumber, Empty, PageMeans, Columns, Combined;
    var live := WithLive(cfg, cond);
    WithLiveCompiles(cfg, t);
    LiveColumns(cfg, t);
    var text, bound := Build(live, 1);
    where := text;
    BuildPage(LiveTree(cfg, t), [Int(pageSize), Int((page - 1) * pageSize)]);
    if !Empty(live) {
      NumberedNonEmpty(LiveTree(cfg, t), 1);
    }
    sql := "SELECT " + cfg.columns + " FROM " + cfg.table;
    sql := sql + (if text == "" then "" else " WHERE " + text);
    sql := sql + (if orderBy == "" then "" else " ORDER BY " + orderBy);
    var limitPos := |bound| + 1;
    sql := sql + (" LIMIT $" + Itoa(limitPos) + " OFFSET $" + Itoa(limitPos + 1));
    args := bound + [Int(pageSize), Int((page - 1) * pageSize)];
    assert [] + [Int(pageSize), Int((page - 1) * pageSize)] == [Int(pageSize), Int((page - 1) * pageSize)];
  }

  lemma LiveColumns(cfg: Config, t: Tree)
    requires ConfigOk(cfg) && Columns(t, W.Identifier)
    ensures Columns(LiveTree(cfg, t), W.Identifier)
  {
    if cfg.softDelete != "" {
      TwoColumns(t, Null(cfg.softDelete));
    }
  }

  /** PaginateCursor: the query filters by the condition, the cursor and liveness, and asks for one row more than the limit. */
  method CursorSql(cfg: Config, cond: Condition, column: string, after: Option<Value>, limit: int, descending: bool, ghost t: Tree)
    returns (sql: string, args: seq<Value>, ghost where: string)
    requires ConfigOk(cfg) && W.Identifier(column) && Columns(t, W.Identifier) && cond == Compile(t)
    ensures PageMeans(where, args, [Int(limit + 1)], LiveTree(cfg, CursorTree(t, column, after, descending)))
    ensures |args| >= 1 && sql == "SELECT " + cfg.columns + " FROM " + cfg.table + (if where == "" then "" else " WHERE " + where)
      + (" ORDER BY " + column + (if descending then " DESC" else " ASC") + " LIMIT $" + Itoa(|args|))
  {
    hide Itoa, Compile, Renumber, Empty, PageMeans, Columns, Combined, W.Identifier;
    var c := cond;
    ghost var tree := CursorTree(t, column, after, descending);
    if after.Some? {
      ghost var leaf := Leaf(if descending then OpLt else OpGt, column, after.value);
      var test := Raw(column + (if descending then " < " else " > ") + "?", [after.value]);
      CursorLeaf(column, after.value, descending);
      c := Combined("AND", [cond, test]);
      TwoColumns(t, leaf);
      TwoCompiled(t, leaf);
    }
    LiveColumns(cfg, tree);
    WithLiveCompiles(cfg, tree);
    c := WithLive(cfg, c);
    var text, bound := Build(c, 1);
    where := text;
    BuildPage(LiveTree(cfg, tree), [Int(limit + 1)]);
    if !Empty(c) {
      NumberedNonEmpty(LiveTree(cfg, tree), 1);
    }
    sql := "SELECT " + cfg.columns + " FROM " + cfg.table;
    sql := sql + (if text == "" then "" else " WHERE " + text);
    var limitPos := |bound| + 1;
    sql := sql + (" ORDER BY " + column + (if descending then " DESC" else " ASC") + " LIMIT $" + Itoa(limitPos));
    args := bound + [Int(limit + 1)];
    assert [] + [Int(limit + 1)] == [Int(limit + 1)];
  }

  lemma CursorLeaf(column: string, v: Value, descending: bool)
    requires W.Identifier(column)
    ensures Columns(Leaf(if descending then OpLt else OpGt, column, v), W.Identifier)
    ensures Compile(Leaf(if descending then OpLt else OpGt, column, v)) == Raw(column + (if descending then " < " else " > ") + "?", [v])
  {}

  /** Which rows a cursor page may return: those meeting the condition, strictly past the cursor, and live. */
  lemma CursorRows(cfg: Config, t: Tree, column: string, after: Value, descending: bool, row: W.Row)
    requires ConfigOk(cfg) && W.Identifier(column)
    ensures Holds(LiveTree(cfg, CursorTree(t, column, Some(after), descending)), row) <==>
      Holds(t, row) && row.compare(if descending then OpLt else OpGt, column, after) == W.Yes
      && (cfg.softDelete == "" || row.isNull(cfg.softDelete))
  {
    var leaf := Leaf(if descending then OpLt else OpGt, column, after);
    var cursor := All([t, leaf]);
    MeansBoth(t, leaf, row);
    PruneTight(cursor, row, _ => true);
    CompilePruned(cursor);
    assert Meaning(cursor, row).Some?;
    if cfg.softDelete != "" {
      MeansBoth(cursor, Null(cfg.softDelete), row);
    }
  }

  lemma MeansBoth(a: Tree, b: Tree, row: W.Row)
    requires Meaning(b, row).Some?
    ensures Meaning(All([a, b]), row).Some?
    ensures Holds(All([a, b]), row) <==> Holds(a, row) && Holds(b, row)
  {
    assert [a, b][1..] == [b] && [b][1..] == [];
    var v := Meaning(b, row).value;
    assert Meanings([b], row) == [v] + [];
    assert W.AllOf([v]) == v by { assert [v][1..] == []; }
    match Meaning(a, row) {
      case None => assert Meanings([a, b], row) == [] + [v] == [v];
      case Some(u) =>
        assert Meanings([a, b], row) == [u] + [v] == [u, v];
        assert [u, v][1..] == [v];
    }
  }
}
