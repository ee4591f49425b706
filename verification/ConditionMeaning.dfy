/** Condition trees: what the builder emits for them, and what that text means when read back. */
module ConditionMeaning {
  import opened Common
  import opened Text
  import opened Conditions
  import opened W = WhereReader

  datatype Tree =
    | Absent                                   // Condition{}
    | Leaf(op: Op, col: string, val: Value)
    | Member(col: string, vals: seq<Value>)
    | Null(col: string)                        // the soft-delete predicate
    | All(kids: seq<Tree>)
    | Any(kids: seq<Tree>)

  function Compile(t: Tree): Condition
    decreases t, 1
  {
    match t
    case Absent => Condition("", [])
    case Leaf(op, col, val) => Compare(op, col, val)
    case Member(col, vals) => In(col, vals)
    case Null(col) => Raw(col + " IS NULL", [])
    case All(kids) => Combined("AND", CompileAll(kids))
    case Any(kids) => Combined("OR", CompileAll(kids))
  }

  function CompileAll(ts: seq<Tree>): (cs: seq<Condition>)
    ensures |cs| == |ts|
    decreases ts, 0
  {
    if ts == [] then [] else [Compile(ts[0])] + CompileAll(ts[1..])
  }

  /** The truth of a tree; operands with no meaning are dropped, and nothing left means no meaning. */
  function Meaning(t: Tree, row: Row): Option<Truth>
    decreases t, 1
  {
    match t
    case Absent => None
    case Leaf(op, col, val) => Some(row.compare(op, col, val))
    case Member(col, vals) => Some(OneOfTruth(row, col, vals))
    case Null(col) => Some(if row.isNull(col) then Yes else No)
    case All(kids) => var ts := Meanings(kids, row); if ts == [] then None else Some(AllOf(ts))
    case Any(kids) => var ts := Meanings(kids, row); if ts == [] then None else Some(AnyOf(ts))
  }

  function Meanings(ts: seq<Tree>, row: Row): seq<Truth>
    decreases ts, 0
  {
    if ts == [] then []
    else (match Meaning(ts[0], row) case None => [] case Some(v) => [v]) + Meanings(ts[1..], row)
  }

  /** Every column passes the test p. */
  ghost predicate Columns(t: Tree, p: string -> bool)
    decreases t, 1
  {
    match t
    case Absent => true
    case Leaf(_, col, _) => p(col)
    case Member(col, _) => p(col)
    case Null(col) => p(col)
    case All(kids) => ColumnsAll(kids, p)
    case Any(kids) => ColumnsAll(kids, p)
  }

  ghost predicate ColumnsAll(ts: seq<Tree>, p: string -> bool)
    decreases ts, 0
  {
    ts == [] || (Columns(ts[0], p) && ColumnsAll(ts[1..], p))
  }

  // ------------------------------------------------- dropping empty operands

  /** The tree without its absent parts; what is left has operands everywhere. */
  ghost function Pruned(t: Tree): (r: Option<Tree>)
    decreases t, 1
  {
    match t
    case Absent => None
    case All(kids) => var ks := PrunedAll(kids); if ks == [] then None else Some(All(ks))
    case Any(kids) => var ks := PrunedAll(kids); if ks == [] then None else Some(Any(ks))
    case _ => Some(t)
  }

  ghost function PrunedAll(ts: seq<Tree>): seq<Tree>
    decreases ts, 0
  {
    if ts == [] then [] else (match Pruned(ts[0]) case None => [] case Some(k) => [k]) + PrunedAll(ts[1..])
  }

  ghost predicate Tight(t: Tree)
    decreases t, 1
  {
    match t
    case Absent => false
    case All(kids) => kids != [] && TightAll(kids)
    case Any(kids) => kids != [] && TightAll(kids)
    case _ => true
  }

  ghost predicate TightAll(ts: seq<Tree>)
    decreases ts, 0
  {
    ts == [] || (Tight(ts[0]) && TightAll(ts[1..]))
  }

  lemma {:induction false} PruneTight(t: Tree, row: Row, p: string -> bool)
    ensures Pruned(t).Some? ==> Tight(Pruned(t).value)
    ensures Columns(t, p) && Pruned(t).Some? ==> Columns(Pruned(t).value, p)
    ensures Meaning(t, row) == if Pruned(t).None? then None else Meaning(Pruned(t).value, row)
    ensures Pruned(t).None? <==> Meaning(t, row).None?
    decreases t, 1
  {
    if t.All? || t.Any? {
      PruneTightAll(t.kids, row, p);
    }
  }

  lemma {:induction false} PruneTightAll(ts: seq<Tree>, row: Row, p: string -> bool)
    ensures TightAll(PrunedAll(ts)) && (ColumnsAll(ts, p) ==> ColumnsAll(PrunedAll(ts), p))
    ensures Meanings(ts, row) == Meanings(PrunedAll(ts), row) && (PrunedAll(ts) == [] <==> Meanings(ts, row) == [])
    decreases ts, 0
  {
    if ts != [] {
      PruneTight(ts[0], row, p);
      PruneTightAll(ts[1..], row, p);
      if Pruned(ts[0]).Some? {
        assert PrunedAll(ts)[0] == Pruned(ts[0]).value && PrunedAll(ts)[1..] == PrunedAll(ts[1..]);
      } else {
        assert PrunedAll(ts) == PrunedAll(ts[1..]);
        assert Meanings(ts, row) == Meanings(ts[1..], row);
      }
    }
  }

  predicate NonBlank(s: string) { exists i :: 0 <= i < |s| && !IsSpace(s[i]) }

  lemma ConcatNonBlank(a: string, b: string, c: string)
    requires NonBlank(b)
    ensures NonBlank(a + b + c)
  {
    var i :| 0 <= i < |b| && !IsSpace(b[i]);
    assert (a + b + c)[|a| + i] == b[i];
  }

  lemma LeafNonEmpty(t: Tree)
    requires t.Leaf? || t.Member? || t.Null?
    ensures NonBlank(Compile(t).clause)
  {
    match t {
      case Leaf(op, col, val) =>
        assert !IsSpace("?"[0]);
        ConcatNonBlank(col + OpText(op), "?", "");
        assert col + OpText(op) + "?" + "" == Compile(t).clause;
      case Member(col, vals) =>
        if vals == [] {
          assert !IsSpace("FALSE"[0]);
        } else {
          assert !IsSpace(" IN ("[1]);
          ConcatNonBlank(col, " IN (", TrimSuffix(Repeat("?, ", |vals|), ", ") + ")");
          assert col + " IN (" + (TrimSuffix(Repeat("?, ", |vals|), ", ") + ")") == Compile(t).clause;
        }
      case Null(col) =>
        assert !IsSpace(" IS NULL"[1]);
        ConcatNonBlank(col, " IS NULL", "");
        assert col + " IS NULL" + "" == Compile(t).clause;
    }
  }

  lemma JoinNonBlank(parts: seq<string>, sep: string)
    requires parts != [] && parts[0] != "" && !IsSpace(parts[0][0])
    ensures NonBlank(Join(parts, sep))
  {
    assert Join(parts, sep)[0] == parts[0][0];
  }

  lemma TightNonEmpty(t: Tree)
    requires Tight(t)
    ensures !Empty(Compile(t))
    decreases t, 1
  {
    match t {
      case All(kids) => TightParts("AND", kids);
      case Any(kids) => TightParts("OR", kids);
      case _ => LeafNonEmpty(t);
    }
  }

  lemma TightParts(op: string, kids: seq<Tree>)
    requires kids != [] && TightAll(kids)
    ensures NonEmpty(CompileAll(kids)) == CompileAll(kids)
    ensures !Empty(Combined(op, CompileAll(kids)))
    decreases kids, 0
  {
    TightNonEmpty(kids[0]);
    if |kids| > 1 {
      TightParts(op, kids[1..]);
    }
    JoinNonBlank(Parens(CompileAll(kids)), " " + op + " ");
  }

  /** The builder emits for a tree what it emits for the pruned one. */
  lemma {:induction false} CompilePruned(t: Tree)
    ensures Compile(t) == if Pruned(t).None? then Condition("", []) else Compile(Pruned(t).value)
    ensures Pruned(t).None? <==> Empty(Compile(t))
    ensures Pruned(t).Some? ==> Tight(Pruned(t).value)
    decreases t, 1
  {
    PruneTight(t, Row((_, _, _) => No, _ => false), _ => true);
    if t.All? || t.Any? {
      CompilePrunedAll(t.kids);
      if PrunedAll(t.kids) != [] {
        TightParts("AND", PrunedAll(t.kids));
      }
    }
    if Pruned(t).Some? {
      TightNonEmpty(Pruned(t).value);
    }
  }

  lemma {:induction false} CompilePrunedAll(ts: seq<Tree>)
    ensures NonEmpty(CompileAll(ts)) == CompileAll(PrunedAll(ts))
    ensures TightAll(PrunedAll(ts))
    decreases ts, 0
  {
    if ts != [] {
      CompilePruned(ts[0]);
      CompilePrunedAll(ts[1..]);
      if Pruned(ts[0]).Some? {
        assert PrunedAll(ts)[0] == Pruned(ts[0]).value && PrunedAll(ts)[1..] == PrunedAll(ts[1..]);
      } else {
        assert PrunedAll(ts) == PrunedAll(ts[1..]);
      }
    }
  }
}
