/** The emitted text reads back as the tree, with the arguments bound in order. */
module ConditionRoundTrip {
  import opened Common
  import opened Text
  import opened Conditions
  import opened ConditionMeaning
  import W = WhereReader

  /** The numbered clause of a tree. */
  ghost function Numbered(t: Tree, n: nat): string { Renumber(Compile(t).clause, n) }

  ghost function Width(t: Tree): nat { |Compile(t).args| }

  // ------------------------------------------------ one mark per argument

  /** Question marks that columns smuggle in. */
  ghost function Stray(t: Tree): nat
    decreases t, 1
  {
    match t
    case Absent => 0
    case Leaf(_, col, _) => Marks(col)
    case Member(col, vals) => if vals == [] then 0 else Marks(col)
    case Null(col) => Marks(col)
    case All(kids) => StrayAll(kids)
    case Any(kids) => StrayAll(kids)
  }

  ghost function StrayAll(ts: seq<Tree>): nat
    decreases ts, 0
  {
    if ts == [] then 0 else Stray(ts[0]) + StrayAll(ts[1..])
  }

  /** "?, ?, ?" after its first mark. */
  ghost function MoreMarks(k: nat): string { if k == 0 then "" else ", ?" + MoreMarks(k - 1) }

  lemma {:induction false} MarkListShape(k: nat)
    requires k > 0
    ensures TrimSuffix(Repeat("?, ", k), ", ") == "?" + MoreMarks(k - 1)
  {
    RepeatShape(k);
    var body := "?" + MoreMarks(k - 1);
    assert (body + ", ")[|body|..] == ", " && (body + ", ")[..|body|] == body;
  }

  lemma {:induction false} RepeatShape(k: nat)
    requires k > 0
    ensures Repeat("?, ", k) == "?" + MoreMarks(k - 1) + ", "
  {
    if k == 1 {
      assert Repeat("?, ", 0) == "";
    } else {
      RepeatShape(k - 1);
    }
  }

  lemma {:induction false} CountMoreMarks(k: nat)
    ensures Marks(MoreMarks(k)) == k
  {
    if k > 0 {
      RenumberConcat(", ?", MoreMarks(k - 1), 0);
      assert Marks(", ?") == 1;
      CountMoreMarks(k - 1);
    }
  }

  ghost function SumMarks(cs: seq<Condition>): nat { if cs == [] then 0 else Marks(cs[0].clause) + SumMarks(cs[1..]) }

  lemma {:induction false} JoinMarks(cs: seq<Condition>, sep: string)
    requires Marks(sep) == 0
    ensures Marks(Join(Parens(cs), sep)) == SumMarks(cs)
  {
    if cs != [] {
      ParenMarks(cs[0].clause);
      JoinMarks(cs[1..], sep);
      if |cs| > 1 {
        RenumberConcat("(" + cs[0].clause + ")", sep, 0);
        RenumberConcat("(" + cs[0].clause + ")" + sep, Join(Parens(cs[1..]), sep), 0);
      }
    }
  }

  lemma ParenMarks(s: string)
    ensures Marks("(" + s + ")") == Marks(s)
  {
    RenumberConcat("(", s, 0);
    RenumberConcat("(" + s, ")", 0);
    assert Marks("(") == 0 && Marks(")") == 0;
  }

  lemma LeafMarks(op: Op, col: string)
    ensures Marks(col + OpText(op) + "?") == Marks(col) + 1
  {
    assert Lacks(OpText(op), '?');
    RenumberPlain(OpText(op), 0);
    RenumberConcat(col, OpText(op), 0);
    RenumberConcat(col + OpText(op), "?", 0);
    assert Marks("?") == 1;
  }

  lemma MemberMarks(col: string, k: nat)
    requires k > 0
    ensures Marks(col + " IN (" + TrimSuffix(Repeat("?, ", k), ", ") + ")") == Marks(col) + k
  {
    OneMark();
    RenumberPlain(" IN (", 0);
    RenumberPlain(")", 0);
    hide MoreMarks, Repeat, TrimSuffix, Marks, Renumber;
    var list := "?" + MoreMarks(k - 1);
    MarkListShape(k);
    CountMoreMarks(k - 1);
    RenumberConcat("?", MoreMarks(k - 1), 0);
    RenumberConcat(col, " IN (", 0);
    RenumberConcat(col + " IN (", list, 0);
    RenumberConcat(col + " IN (" + list, ")", 0);
  }

  lemma OneMark()
    ensures Marks("?") == 1
  {}

  /** Exactly the column names decide whether there is one mark per argument. */
  lemma {:induction false} OneMarkPerArgument(t: Tree)
    ensures Marks(Compile(t).clause) == |Compile(t).args| + Stray(t)
    decreases t, 1
  {
    hide Marks, Renumber;
    assert Marks("") == 0 by { RenumberPlain("", 0); }
    match t {
      case Absent =>
      case Leaf(op, col, _) =>
        LeafMarks(op, col);
      case Member(col, vals) =>
        if vals == [] {
          RenumberPlain("FALSE", 0);
        } else {
          MemberMarks(col, |vals|);
        }
      case Null(col) =>
        RenumberConcat(col, " IS NULL", 0);
        RenumberPlain(" IS NULL", 0);
      case All(kids) =>
        OneMarkPerPart(kids, " AND ");
        assert " " + "AND" + " " == " AND ";
      case Any(kids) =>
        OneMarkPerPart(kids, " OR ");
        assert " " + "OR" + " " == " OR ";
    }
  }

  lemma {:induction false} OneMarkPerPart(ts: seq<Tree>, sep: string)
    requires sep == " AND " || sep == " OR "
    ensures SumMarks(NonEmpty(CompileAll(ts))) == |Args(NonEmpty(CompileAll(ts)))| + StrayAll(ts)
    ensures Marks(Join(Parens(NonEmpty(CompileAll(ts))), sep)) == SumMarks(NonEmpty(CompileAll(ts)))
    decreases ts, 0
  {
    assert Marks(" AND ") == 0 && Marks(" OR ") == 0;
    JoinMarks(NonEmpty(CompileAll(ts)), sep);
    if ts != [] {
      OneMarkPerArgument(ts[0]);
      CompilePruned(ts[0]);
      OneMarkPerPart(ts[1..], sep);
      assert Marks("") == 0;
    }
  }

  // ------------------------------------------------------- the shape of text

  ghost predicate Clean(t: Tree) { Tight(t) && Columns(t, W.Identifier) }

  ghost predicate CleanAll(ts: seq<Tree>) { TightAll(ts) && ColumnsAll(ts, W.Identifier) }

  lemma {:induction false} CleanNotStray(t: Tree)
    requires Columns(t, W.Identifier)
    ensures Stray(t) == 0
    decreases t, 1
  {
    match t {
      case Leaf(_, col, _) => RenumberPlain(col, 0);
      case Member(col, _) => RenumberPlain(col, 0);
      case Null(col) => RenumberPlain(col, 0);
      case All(kids) => CleanNotStrayAll(kids);
      case Any(kids) => CleanNotStrayAll(kids);
      case Absent =>
    }
  }

  lemma {:induction false} CleanNotStrayAll(ts: seq<Tree>)
    requires ColumnsAll(ts, W.Identifier)
    ensures StrayAll(ts) == 0
    decreases ts, 0
  {
    if ts != [] {
      CleanNotStray(ts[0]);
      CleanNotStrayAll(ts[1..]);
    }
  }

  ghost function Part(t: Tree, n: nat): string { "(" + Numbered(t, n) + ")" }

  /** The parts after the first, numbered from n. */
  ghost function Tail(ts: seq<Tree>, sep: string, n: nat): string {
    if ts == [] then "" else sep + "(" + Numbered(ts[0], n) + ")" + Tail(ts[1..], sep, n + Width(ts[0]))
  }

  lemma PartText(t: Tree, n: nat)
    requires Clean(t)
    ensures Renumber("(" + Compile(t).clause + ")", n) == "(" + Numbered(t, n) + ")"
    ensures Marks("(" + Compile(t).clause + ")") == Width(t)
  {
    var clause := Compile(t).clause;
    OneMarkPerArgument(t);
    CleanNotStray(t);
    ParenMarks(clause);
    RenumberConcat("(", clause, n);
    RenumberConcat("(" + clause, ")", n);
    RenumberPlain("(", n);
    RenumberPlain(")", n + Marks("(" + clause));
  }

  lemma JoinText(first: string, sep: string, more: string, n: nat)
    requires Lacks(sep, '?')
    ensures Renumber(first + sep + more, n) == Renumber(first, n) + sep + Renumber(more, n + Marks(first))
  {
    RenumberPlain(sep, n + Marks(first));
    RenumberConcat(first, sep, n);
    RenumberConcat(first + sep, more, n);
  }

  lemma {:induction false} PartsText(ts: seq<Tree>, sep: string, n: nat)
    requires ts != [] && CleanAll(ts) && Lacks(sep, '?')
    ensures Renumber(Join(Parens(CompileAll(ts)), sep), n)
         == "(" + Numbered(ts[0], n) + ")" + Tail(ts[1..], sep, n + Width(ts[0]))
  {
    hide Renumber, Tail;
    PartText(ts[0], n);
    var first := "(" + Compile(ts[0]).clause + ")";
    if |ts| == 1 {
      assert Join(Parens(CompileAll(ts)), sep) == first;
      assert ts[1..] == [];
      TailNil(sep, n + Width(ts[0]));
    } else {
      var more := Join(Parens(CompileAll(ts[1..])), sep);
      assert Join(Parens(CompileAll(ts)), sep) == first + sep + more;
      JoinText(first, sep, more, n);
      PartsText(ts[1..], sep, n + Width(ts[0]));
      TailStep(ts[1..], sep, n + Width(ts[0]));
      Cat3("(" + Numbered(ts[0], n) + ")", sep, Renumber(more, n + Width(ts[0])));
    }
  }

  lemma TailNil(sep: string, n: nat)
    ensures Tail([], sep, n) == ""
  {}

  lemma TailStep(ts: seq<Tree>, sep: string, n: nat)
    requires ts != []
    ensures Tail(ts, sep, n) == sep + (Part(ts[0], n) + Tail(ts[1..], sep, n + Width(ts[0])))
  {
    Cat5(sep, "(", Numbered(ts[0], n), ")", Tail(ts[1..], sep, n + Width(ts[0])));
    Cat4("(", Numbered(ts[0], n), ")", Tail(ts[1..], sep, n + Width(ts[0])));
  }

  // ------------------------------------------------------------ reading back

  ghost function MarkRun(n: nat, k: nat): (ms: seq<nat>)
    ensures |ms| == k && forall i :: 0 <= i < k ==> ms[i] == n + i
    decreases k
  {
    if k == 0 then [] else [n] + MarkRun(n + 1, k - 1)
  }

  ghost function ToSql(t: Tree, n: nat): W.Sql
    requires Tight(t)
    decreases t, 1
  {
    match t
    case Leaf(op, col, _) => W.Cmp(op, col, n)
    case Member(col, vals) => if vals == [] then W.False else W.OneOf(col, MarkRun(n, |vals|))
    case Null(col) => W.IsNull(col)
    case All(kids) => var es := ToSqlAll(kids, n); if |es| == 1 then es[0] else W.And(es)
    case Any(kids) => var es := ToSqlAll(kids, n); if |es| == 1 then es[0] else W.Or(es)
  }

  ghost function ToSqlAll(ts: seq<Tree>, n: nat): (es: seq<W.Sql>)
    requires TightAll(ts)
    ensures |es| == |ts|
    decreases ts, 0
  {
    if ts == [] then [] else [ToSql(ts[0], n)] + ToSqlAll(ts[1..], n + Width(ts[0]))
  }

  lemma {:induction false} IdentRunOf(col: string, rest: string)
    requires forall i :: 0 <= i < |col| ==> W.IsIdent(col[i])
    requires rest == "" || !W.IsIdent(rest[0])
    ensures W.IdentRun(col + rest) == |col| && (col + rest)[..|col|] == col && (col + rest)[|col|..] == rest
  {
    if col == "" {
      assert col + rest == rest;
    } else {
      assert (col + rest)[1..] == col[1..] + rest;
      IdentRunOf(col[1..], rest);
    }
  }

  lemma ReadMarkOf(n: nat, rest: string)
    requires rest == "" || !IsDigit(rest[0])
    ensures W.ReadMark("$" + Itoa(n) + rest) == Some((n, rest))
  {
    NumberItoa(n);
    DigitRunOf(Itoa(n), rest);
    assert ("$" + Itoa(n) + rest)[1..] == Itoa(n) + rest;
  }

  ghost function MarksText(n: nat, k: nat): string
    decreases k
  {
    if k == 0 then "" else ", $" + Itoa(n) + MarksText(n + 1, k - 1)
  }

  lemma RenumberMark(before: string, n: nat)
    requires Lacks(before, '?')
    ensures Renumber(before + "?", n) == before + ("$" + Itoa(n)) && Marks(before + "?") == 1
  {
    RenumberConcat(before, "?", n);
    RenumberPlain(before, n);
    assert Renumber("?", n) == "$" + Itoa(n) + Renumber("", n + 1);
  }

  lemma {:induction false} RenumberMoreMarks(k: nat, n: nat)
    ensures Renumber(MoreMarks(k), n) == MarksText(n, k)
  {
    if k > 0 {
      RenumberMark(", ", n);
      hide Renumber, Marks;
      RenumberConcat(", ?", MoreMarks(k - 1), n);
      RenumberMoreMarks(k - 1, n + 1);
    }
  }

  lemma MarksStep(marks: seq<nat>, m: nat, x: string, more: string)
    requires W.ReadMark(x) == Some((m, more))
    ensures W.ReadMarks(marks, ", " + x) == W.ReadMarks(marks + [m], more)
  {
    Drops(", ", x);
    Differs(", " + x, ")", 0);
  }

  lemma MarksStop(marks: seq<nat>, rest: string)
    ensures W.ReadMarks(marks, ")" + rest) == Some((marks, rest))
  {
    Drops(")", rest);
  }

  lemma {:induction false} ReadMarksOf(marks: seq<nat>, n: nat, k: nat, rest: string)
    ensures W.ReadMarks(marks, MarksText(n, k) + (")" + rest)) == Some((marks + MarkRun(n, k), rest))
    decreases k
  {
    hide W.ReadMarks, W.ReadMark, MarksText;
    if k == 0 {
      MarksTextNil(n);
      MarksStop(marks, rest);
      assert MarksText(n, 0) + (")" + rest) == ")" + rest;
      assert marks + [] == marks;
    } else {
      var more := MarksText(n + 1, k - 1) + (")" + rest);
      MarksTextHead(n, k, ")" + rest);
      AfterMark(n + 1, k - 1, rest);
      ReadMarkOf(n, more);
      MarksStep(marks, n, "$" + Itoa(n) + more, more);
      ReadMarksOf(marks + [n], n + 1, k - 1, rest);
      assert marks + [n] + MarkRun(n + 1, k - 1) == marks + MarkRun(n, k);
    }
  }

  lemma MarksTextNil(n: nat)
    ensures MarksText(n, 0) == ""
  {}

  lemma MarksTextHead(n: nat, k: nat, rest: string)
    requires k > 0
    ensures MarksText(n, k) + rest == ", " + ("$" + Itoa(n) + (MarksText(n + 1, k - 1) + rest))
  {
    var m, tail := Itoa(n), MarksText(n + 1, k - 1);
    assert ", $" == ", " + "$";
    Cat5(", ", "$", m, tail, rest);
    Cat3("$", m, tail + rest);
  }

  lemma AfterMark(n: nat, k: nat, rest: string)
    ensures var s := MarksText(n, k) + (")" + rest); s != "" && !IsDigit(s[0])
  {}

  /** What may follow a clause. */
  ghost predicate Stops(rest: string) { rest == "" || rest[0] == ')' }

  lemma ReadOpOf(op: Op, rest: string)
    ensures W.ReadOp(OpText(op) + rest) == Some((op, rest))
    ensures !StartsWith(OpText(op) + rest, " IN (") && !StartsWith(OpText(op) + rest, " IS NULL")
  {
    var s := OpText(op) + rest;
    Drops(OpText(op), rest);
    Differs(s, " IN (", 1);
    Differs(s, " IS NULL", 1);
    if op != OpEq { Differs(s, " = ", 1); }
    if op == OpGt || op == OpLt { Differs(s, " <> ", if op == OpGt then 1 else 2); }
    if op == OpLt { Differs(s, " > ", 1); }
  }

  lemma AtomCmp(col: string, op: Op, mark: string, n: nat, rest: string)
    requires W.Identifier(col) && W.ReadMark(mark) == Some((n, rest))
    ensures W.ReadAtom(col + (OpText(op) + mark)) == Some((W.Cmp(op, col, n), rest))
  {
    IdentRunOf(col, OpText(op) + mark);
    ReadOpOf(op, mark);
  }

  lemma ReadLeaf(op: Op, col: string, n: nat, rest: string)
    requires W.Identifier(col) && (rest == "" || !IsDigit(rest[0]))
    ensures W.ReadAtom(col + OpText(op) + ("$" + Itoa(n)) + rest) == Some((W.Cmp(op, col, n), rest))
  {
    ReadMarkOf(n, rest);
    AtomCmp(col, op, "$" + Itoa(n) + rest, n, rest);
    Cat4(col, OpText(op), "$" + Itoa(n), rest);
  }

  lemma AtomIn(col: string, mark: string, m: nat, more: string, marks: seq<nat>, rest: string)
    requires W.Identifier(col) && W.ReadMark(mark) == Some((m, more)) && W.ReadMarks([m], more) == Some((marks, rest))
    ensures W.ReadAtom(col + (" IN (" + mark)) == Some((W.OneOf(col, marks), rest))
  {
    IdentRunOf(col, " IN (" + mark);
    Drops(" IN (", mark);
  }

  lemma ReadMember(col: string, n: nat, k: nat, rest: string)
    requires W.Identifier(col) && k > 0
    ensures W.ReadAtom(col + " IN (" + ("$" + Itoa(n) + MarksText(n + 1, k - 1)) + ")" + rest)
         == Some((W.OneOf(col, MarkRun(n, k)), rest))
  {
    var more := MarksText(n + 1, k - 1) + (")" + rest);
    ReadMarkList(n, k, rest);
    hide *;
    AtomIn(col, "$" + Itoa(n) + more, n, more, MarkRun(n, k), rest);
    Cat5(col, " IN (", "$" + Itoa(n) + MarksText(n + 1, k - 1), ")", rest);
    Cat3("$" + Itoa(n), MarksText(n + 1, k - 1), ")" + rest);
  }

  lemma ReadMarkList(n: nat, k: nat, rest: string)
    requires k > 0
    ensures var more := MarksText(n + 1, k - 1) + (")" + rest);
            W.ReadMark("$" + Itoa(n) + more) == Some((n, more)) && W.ReadMarks([n], more) == Some((MarkRun(n, k), rest))
  {
    hide W.ReadMark, W.ReadMarks, MarksText, Itoa;
    AfterMark(n + 1, k - 1, rest);
    ReadMarkOf(n, MarksText(n + 1, k - 1) + (")" + rest));
    ReadMarksOf([n], n + 1, k - 1, rest);
    assert [n] + MarkRun(n + 1, k - 1) == MarkRun(n, k);
  }

  lemma ReadNull(col: string, rest: string)
    requires W.Identifier(col)
    ensures W.ReadAtom(col + " IS NULL" + rest) == Some((W.IsNull(col), rest))
  {
    assert col + " IS NULL" + rest == col + (" IS NULL" + rest);
    IdentRunOf(col, " IS NULL" + rest);
    Drops(" IS NULL", rest);
    Differs(" IS NULL" + rest, " IN (", 2);
  }

  lemma ReadFalse(rest: string)
    requires Stops(rest)
    ensures W.ReadAtom("FALSE" + rest) == Some((W.False, rest))
  {
    IdentRunOf("FALSE", rest);
    if rest != "" {
      Differs(rest, " IN (", 0);
      Differs(rest, " IS NULL", 0);
      assert rest[0] != ' ';
    }
  }

  lemma NumberedLeaf(op: Op, col: string, val: Value, n: nat)
    requires W.Identifier(col)
    ensures Numbered(Leaf(op, col, val), n) == col + OpText(op) + ("$" + Itoa(n))
  {
    assert Lacks(OpText(op), '?');
    RenumberMark(col + OpText(op), n);
  }

  lemma NumberedNull(col: string, n: nat)
    requires W.Identifier(col)
    ensures Numbered(Null(col), n) == col + " IS NULL"
  {
    assert Lacks(" IS NULL", '?');
    RenumberPlain(col + " IS NULL", n);
  }

  lemma NumberedFalse(col: string, n: nat)
    ensures Numbered(Member(col, []), n) == "FALSE"
  {
    RenumberPlain("FALSE", n);
  }

  lemma NumberedMember(col: string, vals: seq<Value>, n: nat)
    requires W.Identifier(col) && vals != []
    ensures Numbered(Member(col, vals), n) == col + " IN (" + ("$" + Itoa(n) + MarksText(n + 1, |vals| - 1)) + ")"
  {
    hide *;
    var list := "?" + MoreMarks(|vals| - 1);
    assert Numbered(Member(col, vals), n) == Renumber(col + " IN (" + list + ")", n) by {
      MemberClause(col, vals, n);
    }
    ColumnThenIn(col);
    MarkListText(|vals| - 1, n);
    Bracketed(col + " IN (", list, n);
  }

  lemma MemberClause(col: string, vals: seq<Value>, n: nat)
    requires vals != []
    ensures Numbered(Member(col, vals), n) == Renumber(col + " IN (" + ("?" + MoreMarks(|vals| - 1)) + ")", n)
  {
    hide Repeat, TrimSuffix, MoreMarks, Renumber;
    MarkListShape(|vals|);
  }

  lemma ColumnThenIn(col: string)
    requires W.Identifier(col)
    ensures Lacks(col + " IN (", '?')
  {}


  lemma MarkListText(k: nat, n: nat)
    ensures Renumber("?" + MoreMarks(k), n) == "$" + Itoa(n) + MarksText(n + 1, k)
  {
    RenumberMark("", n);
    assert "" + "?" == "?";
    RenumberConcat("?", MoreMarks(k), n);
    RenumberMoreMarks(k, n + 1);
  }

  lemma Bracketed(head: string, body: string, n: nat)
    requires Lacks(head, '?')
    ensures Renumber(head + body + ")", n) == head + Renumber(body, n) + ")"
  {
    hide Renumber, Marks;
    RenumberPlain(head, n);
    RenumberConcat(head, body, n);
    RenumberConcat(head + body, ")", n);
    RenumberPlain(")", n + Marks(head + body));
  }

  lemma AtomToOr(text: string, rest: string, e: W.Sql)
    requires Stops(rest)
    requires W.ReadAtom(text + rest) == Some((e, rest))
    ensures W.ReadOr(text + rest) == Some((e, rest))
  {
    assert W.IdentRun(text + rest) > 0;
    Differs(text + rest, "(", 0);
    assert W.ReadPrimary(text + rest) == Some((e, rest));
    AndStop([e], rest);
    OrStop([e], rest);
  }

  // The reader, one step at a time.

  ghost function Whole(es: seq<W.Sql>, conj: bool): W.Sql
    requires es != []
  {
    if |es| == 1 then es[0] else if conj then W.And(es) else W.Or(es)
  }

  lemma AndStep(terms: seq<W.Sql>, x: string, e: W.Sql, more: string)
    requires terms != [] && W.ReadPrimary(x) == Some((e, more))
    ensures W.ReadAndTail(terms, " AND " + x) == W.ReadAndTail(terms + [e], more)
  {
    Drops(" AND ", x);
  }

  lemma AndStop(terms: seq<W.Sql>, rest: string)
    requires terms != [] && (Stops(rest) || StartsWith(rest, " OR "))
    ensures W.ReadAndTail(terms, rest) == Some((Whole(terms, true), rest))
  {
    if StartsWith(rest, " OR ") {
      assert rest[1] == rest[..4][1];
      Differs(rest, " AND ", 1);
    } else if rest != "" {
      Differs(rest, " AND ", 0);
    }
  }

  lemma OrStep(terms: seq<W.Sql>, x: string, e: W.Sql, more: string)
    requires terms != [] && W.ReadAnd(x) == Some((e, more))
    ensures W.ReadOrTail(terms, " OR " + x) == W.ReadOrTail(terms + [e], more)
  {
    Drops(" OR ", x);
  }

  lemma OrStop(terms: seq<W.Sql>, rest: string)
    requires terms != [] && Stops(rest)
    ensures W.ReadOrTail(terms, rest) == Some((Whole(terms, false), rest))
  {
    if rest != "" {
      Differs(rest, " OR ", 0);
    }
  }

  lemma ParenStep(inner: string, e: W.Sql, rest: string)
    requires W.ReadOr(inner + (")" + rest)) == Some((e, ")" + rest))
    ensures W.ReadPrimary("(" + inner + ")" + rest) == Some((e, rest))
  {
    Cat4("(", inner, ")", rest);
    Drops("(", inner + (")" + rest));
    Drops(")", rest);
  }

  lemma {:induction false} ReadNumbered(t: Tree, n: nat, rest: string)
    requires Clean(t) && Stops(rest)
    ensures W.ReadOr(Numbered(t, n) + rest) == Some((ToSql(t, n), rest))
    decreases t, 2
  {
    hide W.ReadOr, W.ReadAtom, Numbered, Compile;
    match t {
      case All(kids) => ReadAll(kids, n, rest);
      case Any(kids) => ReadAny(kids, n, rest);
      case Leaf(op, col, _) =>
        NumberedLeaf(op, col, t.val, n);
        ReadLeaf(op, col, n, rest);
        AtomToOr(Numbered(t, n), rest, ToSql(t, n));
      case Null(col) =>
        NumberedNull(col, n);
        ReadNull(col, rest);
        AtomToOr(Numbered(t, n), rest, ToSql(t, n));
      case Member(col, vals) =>
        if vals == [] {
          NumberedFalse(col, n);
          ReadFalse(rest);
        } else {
          NumberedMember(col, vals, n);
          ReadMember(col, n, |vals|, rest);
        }
        AtomToOr(Numbered(t, n), rest, ToSql(t, n));
    }
  }

  lemma {:induction false} ReadParen(t: Tree, n: nat, rest: string)
    requires Clean(t)
    ensures W.ReadPrimary(Part(t, n) + rest) == Some((ToSql(t, n), rest))
    decreases t, 3
  {
    ReadNumbered(t, n, ")" + rest);
    ParenStep(Numbered(t, n), ToSql(t, n), rest);
  }

  lemma NumberedAll(kids: seq<Tree>, n: nat)
    requires kids != [] && CleanAll(kids)
    ensures Numbered(All(kids), n) == Part(kids[0], n) + Tail(kids[1..], " AND ", n + Width(kids[0]))
  {
    TightParts("AND", kids);
    PartsText(kids, " AND ", n);
    assert " " + "AND" + " " == " AND ";
  }

  lemma NumberedAny(kids: seq<Tree>, n: nat)
    requires kids != [] && CleanAll(kids)
    ensures Numbered(Any(kids), n) == Part(kids[0], n) + Tail(kids[1..], " OR ", n + Width(kids[0]))
  {
    TightParts("OR", kids);
    PartsText(kids, " OR ", n);
    assert " " + "OR" + " " == " OR ";
  }

  lemma SplitClean(ts: seq<Tree>)
    requires ts != [] && CleanAll(ts)
    ensures Tight(ts[0]) && Clean(ts[0]) && CleanAll(ts[1..])
  {}

  lemma OneLonger<T>(a: seq<T>, x: T, b: seq<T>)
    ensures a + [x] + b == a + ([x] + b)
  {}

  lemma {:induction false} ReadAndParts(terms: seq<W.Sql>, ts: seq<Tree>, n: nat, rest: string)
    requires terms != [] && CleanAll(ts) && Stops(rest)
    ensures W.ReadAndTail(terms, Tail(ts, " AND ", n) + rest) == Some((Whole(terms + ToSqlAll(ts, n), true), rest))
    decreases ts, 0
  {
    hide W.ReadAndTail, W.ReadPrimary, Numbered, Tail, Compile, StartsWith, Part, Columns, ColumnsAll;
    if ts == [] {
      TailNil(" AND ", n);
      assert Tail(ts, " AND ", n) + rest == rest;
      assert terms + [] == terms;
      AndStop(terms, rest);
    } else {
      var e, m := ToSql(ts[0], n), n + Width(ts[0]);
      var tail := Tail(ts[1..], " AND ", m);
      TailStep(ts, " AND ", n);
      Cat3(" AND ", Part(ts[0], n) + tail, rest);
      Cat3(Part(ts[0], n), tail, rest);
      SplitClean(ts);
      ReadParen(ts[0], n, tail + rest);
      AndStep(terms, Part(ts[0], n) + (tail + rest), e, tail + rest);
      ReadAndParts(terms + [e], ts[1..], m, rest);
      hide Whole, Stops, Tight;
      OneLonger(terms, e, ToSqlAll(ts[1..], m));
    }
  }

  lemma {:induction false} ReadAll(kids: seq<Tree>, n: nat, rest: string)
    requires kids != [] && CleanAll(kids) && Stops(rest)
    ensures W.ReadOr(Numbered(All(kids), n) + rest) == Some((ToSql(All(kids), n), rest))
    decreases kids, 1
  {
    hide W.ReadAndTail, W.ReadOrTail, W.ReadPrimary, Numbered, Tail, Renumber;
    var e, m := ToSql(kids[0], n), n + Width(kids[0]);
    var tail := Tail(kids[1..], " AND ", m);
    TightParts("AND", kids);
    NumberedAll(kids, n);
    Cat3(Part(kids[0], n), tail, rest);
    ReadParen(kids[0], n, tail + rest);
    ReadAndParts([e], kids[1..], m, rest);
    assert [e] + ToSqlAll(kids[1..], m) == ToSqlAll(kids, n);
    assert W.ReadAnd(Part(kids[0], n) + (tail + rest)) == Some((ToSql(All(kids), n), rest));
    OrStop([ToSql(All(kids), n)], rest);
  }

  /** Inside an OR each part is one AND-term of a single factor. */
  lemma {:induction false} ReadOrFactor(t: Tree, n: nat, more: string)
    requires Clean(t) && (Stops(more) || StartsWith(more, " OR "))
    ensures W.ReadAnd(Part(t, n) + more) == Some((ToSql(t, n), more))
    decreases t, 4
  {
    ReadParen(t, n, more);
    AndStop([ToSql(t, n)], more);
  }

  lemma OrTailStarts(ts: seq<Tree>, n: nat, rest: string)
    requires Stops(rest)
    ensures var s := Tail(ts, " OR ", n) + rest; Stops(s) || StartsWith(s, " OR ")
  {
    if ts == [] {
      assert Tail(ts, " OR ", n) + rest == rest;
    } else {
      TailStep(ts, " OR ", n);
      Cat3(" OR ", Part(ts[0], n) + Tail(ts[1..], " OR ", n + Width(ts[0])), rest);
      Drops(" OR ", Part(ts[0], n) + Tail(ts[1..], " OR ", n + Width(ts[0])) + rest);
    }
  }

  lemma {:induction false} ReadOrParts(terms: seq<W.Sql>, ts: seq<Tree>, n: nat, rest: string)
    requires terms != [] && CleanAll(ts) && Stops(rest)
    ensures W.ReadOrTail(terms, Tail(ts, " OR ", n) + rest) == Some((Whole(terms + ToSqlAll(ts, n), false), rest))
    decreases ts, 0
  {
    hide W.ReadOrTail, W.ReadAnd, Numbered, Tail, Compile, StartsWith, Part, Columns, ColumnsAll;
    if ts == [] {
      TailNil(" OR ", n);
      assert Tail(ts, " OR ", n) + rest == rest;
      assert terms + [] == terms;
      OrStop(terms, rest);
    } else {
      var e, m := ToSql(ts[0], n), n + Width(ts[0]);
      var tail := Tail(ts[1..], " OR ", m);
      TailStep(ts, " OR ", n);
      Cat3(" OR ", Part(ts[0], n) + tail, rest);
      Cat3(Part(ts[0], n), tail, rest);
      SplitClean(ts);
      OrTailStarts(ts[1..], m, rest);
      ReadOrFactor(ts[0], n, tail + rest);
      OrStep(terms, Part(ts[0], n) + (tail + rest), e, tail + rest);
      ReadOrParts(terms + [e], ts[1..], m, rest);
      hide Whole, Stops, Tight;
      OneLonger(terms, e, ToSqlAll(ts[1..], m));
    }
  }

  lemma {:induction false} ReadAny(kids: seq<Tree>, n: nat, rest: string)
    requires kids != [] && CleanAll(kids) && Stops(rest)
    ensures W.ReadOr(Numbered(Any(kids), n) + rest) == Some((ToSql(Any(kids), n), rest))
    decreases kids, 1
  {
    hide W.ReadAndTail, W.ReadOrTail, W.ReadPrimary, Numbered, Tail, Renumber;
    var e, m := ToSql(kids[0], n), n + Width(kids[0]);
    var tail := Tail(kids[1..], " OR ", m);
    TightParts("OR", kids);
    NumberedAny(kids, n);
    Cat3(Part(kids[0], n), tail, rest);
    OrTailStarts(kids[1..], m, rest);
    ReadOrFactor(kids[0], n, tail + rest);
    ReadOrParts([e], kids[1..], m, rest);
    assert [e] + ToSqlAll(kids[1..], m) == ToSqlAll(kids, n);
  }

  /** The marks of an expression from left to right. */
  ghost function MarksOf(e: W.Sql): seq<nat>
    decreases e, 1
  {
    match e
    case False => []
    case Cmp(_, _, m) => [m]
    case OneOf(_, ms) => ms
    case IsNull(_) => []
    case And(es) => MarksOfAll(es)
    case Or(es) => MarksOfAll(es)
  }

  ghost function MarksOfAll(es: seq<W.Sql>): seq<nat>
    decreases es, 0
  {
    if es == [] then [] else MarksOf(es[0]) + MarksOfAll(es[1..])
  }

  lemma MarkRunConcat(n: nat, j: nat, k: nat)
    ensures MarkRun(n, j) + MarkRun(n + j, k) == MarkRun(n, j + k)
  {
    hide MarkRun;
  }

  /** The placeholders are n, n+1, ... with one for each argument, in argument order. */
  lemma {:induction false} MarksInOrder(t: Tree, n: nat)
    requires Tight(t)
    ensures MarksOf(ToSql(t, n)) == MarkRun(n, Width(t))
    decreases t, 1
  {
    match t {
      case Leaf(_, _, _) =>
      case Member(_, _) =>
      case Null(_) =>
      case All(kids) => TightParts("AND", kids); MarksInOrderAll(kids, n);
      case Any(kids) => TightParts("OR", kids); MarksInOrderAll(kids, n);
    }
    if (t.All? || t.Any?) && |t.kids| == 1 {
      assert ToSqlAll(t.kids, n)[1..] == [];
      assert MarksOf(ToSqlAll(t.kids, n)[0]) + [] == MarksOf(ToSqlAll(t.kids, n)[0]);
    }
  }

  lemma {:induction false} MarksInOrderAll(ts: seq<Tree>, n: nat)
    requires TightAll(ts)
    ensures MarksOfAll(ToSqlAll(ts, n)) == MarkRun(n, |Args(CompileAll(ts))|)
    decreases ts, 0
  {
    if ts != [] {
      hide MarkRun;
      MarksInOrder(ts[0], n);
      MarksInOrderAll(ts[1..], n + Width(ts[0]));
      MarkRunConcat(n, Width(ts[0]), |Args(CompileAll(ts[1..]))|);
    }
  }

  // -------------------------------------------------------------- same truth

  /** bind gives the marks n, n+1, ... the arguments in order. */
  ghost predicate Binds(bind: nat -> Value, n: nat, args: seq<Value>) {
    forall i :: 0 <= i < |args| ==> bind(n + i) == args[i]
  }

  lemma {:induction false} BoundRun(bind: nat -> Value, n: nat, vals: seq<Value>)
    requires Binds(bind, n, vals)
    ensures W.Bound(MarkRun(n, |vals|), bind) == vals
    decreases |vals|
  {
    if vals != [] {
      assert forall i :: 0 <= i < |vals[1..]| ==> bind(n + 1 + i) == bind(n + (i + 1)) == vals[i + 1] == vals[1..][i];
      BoundRun(bind, n + 1, vals[1..]);
    }
  }

  lemma {:induction false} SameTruth(t: Tree, n: nat, row: W.Row, bind: nat -> Value)
    requires Tight(t) && Binds(bind, n, Compile(t).args)
    ensures Meaning(t, row) == Some(W.Eval(ToSql(t, n), row, bind))
    decreases t, 1
  {
    match t {
      case Leaf(_, _, val) => assert bind(n + 0) == Compile(t).args[0];
      case Member(_, vals) => BoundRun(bind, n, vals);
      case Null(_) =>
      case All(kids) => TightParts("AND", kids); SameTruthAll(kids, n, row, bind);
      case Any(kids) => TightParts("OR", kids); SameTruthAll(kids, n, row, bind);
    }
    if (t.All? || t.Any?) && |t.kids| == 1 {
      OneOperand(ToSqlAll(t.kids, n)[0], row, bind);
    }
  }

  lemma OneOperand(e: W.Sql, row: W.Row, bind: nat -> Value)
    ensures W.EvalAll([e], row, bind) == [W.Eval(e, row, bind)]
    ensures W.AllOf([W.Eval(e, row, bind)]) == W.AnyOf([W.Eval(e, row, bind)]) == W.Eval(e, row, bind)
  {
    assert [e][1..] == [];
  }

  lemma {:induction false} SameTruthAll(ts: seq<Tree>, n: nat, row: W.Row, bind: nat -> Value)
    requires TightAll(ts) && Binds(bind, n, Args(CompileAll(ts)))
    ensures Meanings(ts, row) == W.EvalAll(ToSqlAll(ts, n), row, bind)
    decreases ts, 0
  {
    if ts != [] {
      var args, more := Compile(ts[0]).args, Args(CompileAll(ts[1..]));
      assert Args(CompileAll(ts)) == args + more;
      forall i | 0 <= i < |args| ensures bind(n + i) == args[i] {
        assert (args + more)[i] == args[i];
      }
      forall i | 0 <= i < |more| ensures bind(n + |args| + i) == more[i] {
        assert bind(n + (|args| + i)) == (args + more)[|args| + i];
      }
      SameTruth(ts[0], n, row, bind);
      SameTruthAll(ts[1..], n + Width(ts[0]), row, bind);
    }
  }

  /**
    The compiler is correct: the text build produces is empty exactly when the
    tree means nothing, and otherwise reads back, as SQL, to an expression that
    is true of exactly the rows the tree is true of.
   */
  lemma BuildMeansTree(t: Tree, start: nat, row: W.Row, bind: nat -> Value)
    requires Columns(t, W.Identifier) && Binds(bind, start, Compile(t).args)
    ensures Meaning(t, row).None? <==> Empty(Compile(t))
    ensures Meaning(t, row).Some? ==>
      var e := W.Read(Renumber(Compile(t).clause, start));
      e.Some? && W.Eval(e.value, row, bind) == Meaning(t, row).value && MarksOf(e.value) == MarkRun(start, Width(t))
  {
    PruneTight(t, row, W.Identifier);
    CompilePruned(t);
    if Pruned(t).Some? {
      var p := Pruned(t).value;
      assert Numbered(p, start) + "" == Numbered(p, start);
      ReadNumbered(p, start, "");
      SameTruth(p, start, row, bind);
      MarksInOrder(p, start);
    }
  }
}
