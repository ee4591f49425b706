/** BulkUpsert: many rows in one INSERT, its VALUES list and ON CONFLICT clause. */
module BulkUpsert {
  import opened Common
  import opened Text
  import opened Conditions
  import opened ConditionRoundTrip
  import W = WhereReader

  // ------------------------------------------------------- reading a VALUES list

  /** "($a, $b, ...)". */
  function ReadTuple(s: string): W.Parsed<seq<nat>> {
    if !StartsWith(s, "(") then None
    else match W.ReadMark(s[1..])
         case None => None
         case Some((m, rest)) => W.ReadMarks([m], rest)
  }

  /** Tuples separated by commas; what follows the last one is returned. */
  function ReadTuples(s: string): (r: W.Parsed<seq<seq<nat>>>)
    decreases |s|
  {
    match ReadTuple(s)
    case None => None
    case Some((t, rest)) =>
      if StartsWith(rest, ", ") && |rest| <= |s| then
        (match ReadTuples(rest[2..])
         case None => None
         case Some((ts, end)) => Some(([t] + ts, end)))
      else Some(([t], rest))
  }

  // ----------------------------------------------------------- what is written

  /** k marks from n, separated by commas. */
  ghost function Marks'(n: nat, k: nat): string { if k == 0 then "" else "$" + Itoa(n) + MarksText(n + 1, k - 1) }

  ghost function Tuple(n: nat, width: nat): string { "(" + Marks'(n, width) + ")" }

  /** count tuples, each after a comma. */
  ghost function MoreTuples(n: nat, width: nat, count: nat): string
    decreases count
  {
    if count == 0 then "" else ", " + Tuple(n, width) + MoreTuples(n + width, width, count - 1)
  }

  ghost function Tuples(n: nat, width: nat, count: nat): string {
    if count == 0 then "" else Tuple(n, width) + MoreTuples(n + width, width, count - 1)
  }

  /** The placeholders of each row. */
  ghost function RowMarks(n: nat, width: nat, count: nat): (ms: seq<seq<nat>>)
    ensures |ms| == count && forall r :: 0 <= r < count ==> |ms[r]| == width
    decreases count
  {
    if count == 0 then [] else [MarkRun(n, width)] + RowMarks(n + width, width, count - 1)
  }

  function Flat(rows: seq<seq<Value>>, width: nat): seq<Value>
    requires forall r :: 0 <= r < |rows| ==> width <= |rows[r]|
  {
    if rows == [] then [] else rows[0][..width] + Flat(rows[1..], width)
  }

  // ------------------------------------------------------------------ snoc forms

  lemma {:induction false} MarksSnoc(n: nat, k: nat)
    ensures MarksText(n, k + 1) == MarksText(n, k) + (", $" + Itoa(n + k))
    decreases k
  {
    if k == 0 {
      assert MarksText(n + 1, 0) == "";
      assert ", $" + Itoa(n) + "" == "" + (", $" + Itoa(n));
    } else {
      MarksSnoc(n + 1, k - 1);
      Cat3(", $" + Itoa(n), MarksText(n + 1, k - 1), ", $" + Itoa(n + k));
    }
  }

  lemma {:induction false} MoreTuplesSnoc(n: nat, width: nat, count: nat)
    ensures MoreTuples(n, width, count + 1) == MoreTuples(n, width, count) + (", " + Tuple(n + width * count, width))
    decreases count
  {
    hide Tuple;
    if count == 0 {
      assert MoreTuples(n + width, width, 0) == "";
      assert ", " + Tuple(n, width) + "" == "" + (", " + Tuple(n, width));
      assert width * 0 == 0;
    } else {
      MoreTuplesSnoc(n + width, width, count - 1);
      assert n + width + width * (count - 1) == n + width * count;
      Cat3(", " + Tuple(n, width), MoreTuples(n + width, width, count - 1), ", " + Tuple(n + width * count, width));
    }
  }

  lemma {:induction false} FlatSnoc(rows: seq<seq<Value>>, row: seq<Value>, width: nat)
    requires (forall r :: 0 <= r < |rows| ==> width <= |rows[r]|) && width <= |row|
    ensures Flat(rows + [row], width) == Flat(rows, width) + row[..width]
  {
    if rows == [] {
      assert (rows + [row])[1..] == [];
      assert row[..width] + [] == [] + row[..width];
    } else {
      assert (rows + [row])[1..] == rows[1..] + [row];
      FlatSnoc(rows[1..], row, width);
    }
  }

  lemma {:induction false} FlatLength(rows: seq<seq<Value>>, width: nat)
    requires forall r :: 0 <= r < |rows| ==> width <= |rows[r]|
    ensures |Flat(rows, width)| == width * |rows|
  {
    if rows != [] {
      FlatLength(rows[1..], width);
      assert width + width * (|rows| - 1) == width * |rows|;
    }
  }

  // --------------------------------------------------------------- the method

  /** One row's tuple: the inner loop. */
  method WriteTuple(row: seq<Value>, width: nat, pos: nat) returns (text: string, args: seq<Value>, next: nat)
    requires width <= |row|
    ensures text == Tuple(pos, width) && args == row[..width] && next == pos + width
  {
    hide Itoa, MarksText;
    text, args, next := "", [], pos;
    for ci := 0 to width
      invariant text == Marks'(pos, ci) && args == row[..ci] && next == pos + ci
    {
      if ci > 0 {
        MarksSnoc(pos + 1, ci - 1);
        assert ", $" == ", " + "$";
        Cat3(", ", "$", Itoa(next));
        Cat3(text, ", ", "$" + Itoa(next));
        Cat3("$" + Itoa(pos), MarksText(pos + 1, ci - 1), ", $" + Itoa(next));
        text := text + ", ";
      } else {
        NoMarks(pos + 1);
        assert "" + ("$" + Itoa(next)) == "$" + Itoa(next) + "";
      }
      text := text + ("$" + Itoa(next));
      next := next + 1;
      args := args + [row[ci]];
    }
    text := "(" + text + ")";
  }

  lemma NoMarks(n: nat)
    ensures MarksText(n, 0) == ""
  {}

  function Statement(table: string, columns: seq<string>, values: string, target: string, updateColumns: seq<string>): string {
    "INSERT INTO " + table + " (" + Join(columns, ", ") + ") VALUES " + values + (" ON CONFLICT " + target + ConflictAction(updateColumns))
  }

  /** The whole statement; rows shorter than the column list make the source panic. */
  method Upsert(table: string, columns: seq<string>, rows: seq<seq<Value>>, conflictTarget: string, updateColumns: seq<string>)
    returns (sql: string, args: seq<Value>)
    requires forall r :: 0 <= r < |rows| ==> |columns| <= |rows[r]|
    ensures rows == [] ==> sql == "" && args == []
    ensures rows != [] ==> sql == Statement(table, columns, Tuples(1, |columns|, |rows|), conflictTarget, updateColumns)
    ensures args == Flat(rows, |columns|)
  {
    hide Itoa, Tuple, MoreTuples, ConflictAction, Flat;
    if |rows| == 0 {
      NoRows(|columns|);
      return "", [];
    }
    var values := "";
    var pos := 1;
    args := [];
    NoRows(|columns|);
    for ri := 0 to |rows|
      invariant values == Tuples(1, |columns|, ri) && args == Flat(rows[..ri], |columns|) && pos == 1 + |columns| * ri
    {
      assert rows[..ri + 1] == rows[..ri] + [rows[ri]];
      FlatSnoc(rows[..ri], rows[ri], |columns|);
      var text, vals, next := WriteTuple(rows[ri], |columns|, pos);
      TuplesSnoc(|columns|, ri);
      if ri > 0 {
        values := values + ", ";
      }
      values := values + text;
      args := args + vals;
      pos := next;
      assert |columns| * ri + |columns| == |columns| * (ri + 1);
    }
    assert rows[..|rows|] == rows;
    var action := WriteAction(updateColumns);
    sql := "INSERT INTO " + table + " (" + Join(columns, ", ") + ") VALUES " + values + (" ON CONFLICT " + conflictTarget + action);
  }

  lemma NoRows(width: nat)
    ensures Tuples(1, width, 0) == "" && Flat([], width) == []
  {}

  lemma TuplesSnoc(width: nat, count: nat)
    ensures Tuples(1, width, count + 1)
         == if count == 0 then "" + Tuple(1, width) else Tuples(1, width, count) + ", " + Tuple(1 + width * count, width)
  {
    hide Tuple;
    if count == 0 {
      assert Tuple(1, width) + MoreTuples(1 + width, width, 0) == "" + Tuple(1, width);
    } else {
      MoreTuplesSnoc(1 + width, width, count - 1);
      assert 1 + width + width * (count - 1) == 1 + width * count;
      Cat3(Tuple(1, width), MoreTuples(1 + width, width, count - 1), ", " + Tuple(1 + width * count, width));
      Cat3(Tuples(1, width, count), ", ", Tuple(1 + width * count, width));
    }
  }

  function Excluded(cols: seq<string>): (parts: seq<string>)
    ensures |parts| == |cols| && forall i :: 0 <= i < |cols| ==> parts[i] == cols[i] + " = EXCLUDED." + cols[i]
  {
    if cols == [] then [] else [cols[0] + " = EXCLUDED." + cols[0]] + Excluded(cols[1..])
  }

  function ConflictAction(cols: seq<string>): string {
    if cols == [] then " DO NOTHING" else " DO UPDATE SET " + Join(Excluded(cols), ", ")
  }

  method WriteAction(cols: seq<string>) returns (text: string)
    ensures text == ConflictAction(cols)
  {
    if |cols| == 0 {
      return " DO NOTHING";
    }
    var list := "";
    for i := 0 to |cols|
      invariant list == Join(Excluded(cols)[..i], ", ")
    {
      var part := cols[i] + " = EXCLUDED." + cols[i];
      assert Excluded(cols)[..i + 1] == Excluded(cols)[..i] + [part];
      if i > 0 {
        JoinSnoc(Excluded(cols)[..i], part, ", ");
        list := list + ", ";
      } else {
        assert Join([part], ", ") == "" + part;
        assert Excluded(cols)[..1] == [part];
      }
      list := list + part;
    }
    assert Excluded(cols)[..|cols|] == Excluded(cols);
    text := " DO UPDATE SET " + list;
  }

  // ------------------------------------------------------------ reading it back

  lemma ReadTupleOf(n: nat, width: nat, rest: string)
    requires width > 0
    ensures ReadTuple(Tuple(n, width) + rest) == Some((MarkRun(n, width), rest))
  {
    hide W.ReadMarks, W.ReadMark, Itoa, MarksText;
    var more := MarksText(n + 1, width - 1) + (")" + rest);
    Cat4("(", Marks'(n, width), ")", rest);
    Cat3("$" + Itoa(n), MarksText(n + 1, width - 1), ")" + rest);
    Drops("(", Marks'(n, width) + (")" + rest));
    AfterMark(n + 1, width - 1, rest);
    ReadMarkOf(n, more);
    ReadMarksOf([n], n + 1, width - 1, rest);
    assert [n] + MarkRun(n + 1, width - 1) == MarkRun(n, width);
  }

  lemma TuplesStep(s: string, t: seq<nat>, next: string, ts: seq<seq<nat>>, rest: string)
    requires ReadTuple(s) == Some((t, ", " + next)) && |next| < |s| - 1 && ReadTuples(next) == Some((ts, rest))
    ensures ReadTuples(s) == Some(([t] + ts, rest))
  {
    Drops(", ", next);
  }

  lemma {:induction false} ReadTuplesOf(n: nat, width: nat, count: nat, rest: string)
    requires width > 0 && count > 0 && !StartsWith(rest, ", ")
    ensures ReadTuples(Tuples(n, width, count) + rest) == Some((RowMarks(n, width, count), rest))
    decreases count
  {
    hide ReadTuple, ReadTuples, Tuple, StartsWith, MarkRun;
    var s := Tuples(n, width, count) + rest;
    if count == 1 {
      assert MoreTuples(n + width, width, 0) == "" && RowMarks(n + width, width, 0) == [];
      assert Tuples(n, width, 1) == Tuple(n, width);
      assert RowMarks(n, width, 1) == [MarkRun(n, width)];
      ReadTupleOf(n, width, rest);
      LastTuple(s, MarkRun(n, width), rest);
    } else {
      var next := Tuples(n + width, width, count - 1) + rest;
      MoreIsTuples(n + width, width, count - 1);
      Cat3(", ", Tuples(n + width, width, count - 1), rest);
      Cat3(Tuple(n, width), ", " + Tuples(n + width, width, count - 1), rest);
      ReadTupleOf(n, width, ", " + next);
      ReadTuplesOf(n + width, width, count - 1, rest);
      assert s == Tuple(n, width) + (", " + next) && |Tuple(n, width)| > 0 by { TupleLength(n, width); }
      TuplesStep(s, MarkRun(n, width), next, RowMarks(n + width, width, count - 1), rest);
    }
  }

  lemma TupleLength(n: nat, width: nat)
    ensures |Tuple(n, width)| >= 2
  {}

  lemma LastTuple(s: string, t: seq<nat>, rest: string)
    requires ReadTuple(s) == Some((t, rest)) && !StartsWith(rest, ", ")
    ensures ReadTuples(s) == Some(([t], rest))
  {}

  lemma MoreIsTuples(n: nat, width: nat, count: nat)
    requires count > 0
    ensures MoreTuples(n, width, count) == ", " + Tuples(n, width, count)
  {
    hide Tuple;
    Cat3(", ", Tuple(n, width), MoreTuples(n + width, width, count - 1));
  }

  /** Row r, column c of the statement is bound to rows[r][c]. */
  lemma {:induction false} CellBound(rows: seq<seq<Value>>, width: nat, n: nat, r: nat, c: nat)
    requires (forall k :: 0 <= k < |rows| ==> width <= |rows[k]|) && r < |rows| && c < width
    ensures n <= RowMarks(n, width, |rows|)[r][c] < n + |Flat(rows, width)|
    ensures Flat(rows, width)[RowMarks(n, width, |rows|)[r][c] - n] == rows[r][c]
    decreases r
  {
    if r > 0 {
      CellBound(rows[1..], width, n + width, r - 1, c);
    }
  }

  /**
    The statement is laid out right: its VALUES list reads back as one tuple per
    row and one mark per column, and each mark's argument is that row's value.
   */
  lemma UpsertLayout(columns: seq<string>, rows: seq<seq<Value>>, rest: string)
    requires columns != [] && rows != [] && forall r :: 0 <= r < |rows| ==> |columns| <= |rows[r]|
    requires !StartsWith(rest, ", ")
    ensures var width := |columns|;
            var read := ReadTuples(Tuples(1, width, |rows|) + rest);
            && read.Some? && read.value.1 == rest && |read.value.0| == |rows|
            && |Flat(rows, width)| == width * |rows|
            && forall r, c :: 0 <= r < |rows| && 0 <= c < width ==>
                 |read.value.0[r]| == width && 1 <= read.value.0[r][c] <= |Flat(rows, width)|
                 && Flat(rows, width)[read.value.0[r][c] - 1] == rows[r][c]
  {
    hide ReadTuples, Tuples, RowMarks, Flat;
    ReadTuplesOf(1, |columns|, |rows|, rest);
    FlatLength(rows, |columns|);
    forall r, c | 0 <= r < |rows| && 0 <= c < |columns|
      ensures 1 <= RowMarks(1, |columns|, |rows|)[r][c] < 1 + |Flat(rows, |columns|)|
      ensures Flat(rows, |columns|)[RowMarks(1, |columns|, |rows|)[r][c] - 1] == rows[r][c]
    {
      CellBound(rows, |columns|, 1, r, c);
    }
  }
}
