/** The statements the generic repository sends, and how their text reads back. */
module Statements {
  import opened Common
  import opened Text
  import opened Order
  import opened Conditions
  import opened ConditionRoundTrip
  import opened ConditionMeaning
  import W = WhereReader

  datatype Config = Config(table: string, pk: string, columns: string, softDelete: string, version: string)

  // -------------------------------------------------------------- SET lists

  datatype SetItem = Assign(col: string, mark: nat) | Bump(col: string)

  function ReadItem(s: string): (r: W.Parsed<SetItem>)
    ensures r.Some? ==> |r.value.1| < |s|
  {
    var k := W.IdentRun(s);
    var col, rest := s[..k], s[k..];
    if k == 0 || !StartsWith(rest, " = ") then None
    else if StartsWith(rest[3..], "$") then
      match W.ReadMark(rest[3..])
      case None => None
      case Some((m, more)) => Some((Assign(col, m), more))
    else if StartsWith(rest[3..], col + " + 1") then Some((Bump(col), rest[3..][|col| + 4..]))
    else None
  }

  /** A whole SET list; a column assigned twice is refused as the database refuses it. */
  function ReadSet(s: string): Option<seq<SetItem>>
    decreases |s|
  {
    match ReadItem(s)
    case None => None
    case Some((item, rest)) =>
      if rest == "" then Some([item])
      else if !StartsWith(rest, ", ") then None
      else match ReadSet(rest[2..])
           case None => None
           case Some(items) => if exists i :: 0 <= i < |items| && items[i].col == item.col then None else Some([item] + items)
  }

  function SetParts(cols: seq<string>, n: nat): (parts: seq<string>)
    ensures |parts| == |cols|
    decreases |cols|
  {
    if cols == [] then [] else [cols[0] + " = $" + Itoa(n)] + SetParts(cols[1..], n + 1)
  }

  function Placeholders(cols: seq<string>, n: nat): (parts: seq<string>)
    ensures |parts| == |cols|
    decreases |cols|
  {
    if cols == [] then [] else ["$" + Itoa(n)] + Placeholders(cols[1..], n + 1)
  }

  function Values(cols: seq<string>, values: map<string, Value>): (args: seq<Value>)
    requires forall i :: 0 <= i < |cols| ==> cols[i] in values
    ensures |args| == |cols| && forall i :: 0 <= i < |cols| ==> args[i] == values[cols[i]]
  {
    if cols == [] then [] else [values[cols[0]]] + Values(cols[1..], values)
  }

  lemma {:induction false} SetPartsAt(cols: seq<string>, n: nat, i: nat)
    requires i < |cols|
    ensures SetParts(cols, n)[i] == cols[i] + " = $" + Itoa(n + i)
    ensures Placeholders(cols, n)[i] == "$" + Itoa(n + i)
    decreases |cols|
  {
    if i > 0 {
      SetPartsAt(cols[1..], n + 1, i - 1);
    }
  }

  /** Map iteration visits the keys in no fixed order; sorting them makes the column order fixed. */
  method SortedKeys(values: map<string, Value>) returns (cols: seq<string>)
    ensures Ascending(cols) && |cols| == |values| && forall c :: c in cols <==> c in values
  {
    var left := values.Keys;
    cols := [];
    while left != {}
      invariant left <= values.Keys && |cols| + |left| == |values|
      invariant forall c :: c in cols <==> c in values && c !in left
      invariant forall i, j :: 0 <= i < j < |cols| ==> cols[i] != cols[j]
      decreases |left|
    {
      var c :| c in left;
      left := left - {c};
      cols := cols + [c];
    }
    cols := Sorted(cols);
  }

  /** Each column lined up with its placeholder and its value: the loop of both builders. */
  method LineUp(cols: seq<string>, values: map<string, Value>, offset: nat)
    returns (parts: seq<string>, marks: seq<string>, args: seq<Value>)
    requires forall i :: 0 <= i < |cols| ==> cols[i] in values
    ensures parts == SetParts(cols, offset + 1) && marks == Placeholders(cols, offset + 1) && args == Values(cols, values)
  {
    hide SetParts, Placeholders, Values, Itoa;
    parts, marks, args := [], [], [];
    for i := 0 to |cols|
      invariant |parts| == |marks| == |args| == i
      invariant forall k :: 0 <= k < i ==> parts[k] == SetParts(cols, offset + 1)[k]
      invariant forall k :: 0 <= k < i ==> marks[k] == Placeholders(cols, offset + 1)[k]
      invariant forall k :: 0 <= k < i ==> args[k] == values[cols[k]]
    {
      SetPartsAt(cols, offset + 1, i);
      parts := parts + [cols[i] + " = $" + Itoa(offset + i + 1)];
      marks := marks + ["$" + Itoa(offset + i + 1)];
      args := args + [values[cols[i]]];
    }
  }

  lemma AllIn(cols: seq<string>, values: map<string, Value>)
    requires forall c :: c in cols <==> c in values
    ensures forall i :: 0 <= i < |cols| ==> cols[i] in values
  {}

  /** The SET clause and its arguments; by AscendingUnique the columns do not depend on iteration order. */
  method BuildSet(values: map<string, Value>, offset: nat) returns (clause: string, args: seq<Value>, cols: seq<string>)
    ensures Ascending(cols) && |cols| == |values| && forall c :: c in cols <==> c in values
    ensures clause == Join(SetParts(cols, offset + 1), ", ") && args == Values(cols, values)
  {
    hide *;
    var keys := SortedKeys(values);
    cols := keys;
    AllIn(keys, values);
    var parts, marks, vals := LineUp(keys, values, offset);
    clause, args := Join(parts, ", "), vals;
  }

  /** Columns, placeholders and arguments of an INSERT, lined up. */
  method SplitValues(values: map<string, Value>, offset: nat) returns (cols: seq<string>, marks: seq<string>, args: seq<Value>)
    ensures Ascending(cols) && |cols| == |values| && forall c :: c in cols <==> c in values
    ensures marks == Placeholders(cols, offset + 1) && args == Values(cols, values)
  {
    hide *;
    var parts;
    cols := SortedKeys(values);
    AllIn(cols, values);
    parts, marks, args := LineUp(cols, values, offset);
  }

  // ------------------------------------------------------- reading SET back

  ghost function Assigns(cols: seq<string>, n: nat): (items: seq<SetItem>)
    ensures |items| == |cols| && forall i :: 0 <= i < |cols| ==> items[i] == Assign(cols[i], n + i)
    decreases |cols|
  {
    if cols == [] then [] else [Assign(cols[0], n)] + Assigns(cols[1..], n + 1)
  }

  lemma ReadAssign(col: string, n: nat, rest: string)
    requires W.Identifier(col) && (rest == "" || !IsDigit(rest[0]))
    ensures ReadItem(col + " = $" + Itoa(n) + rest) == Some((Assign(col, n), rest))
  {
    hide DigitRun, Itoa;
    var mark := "$" + Itoa(n) + rest;
    assert " = $" == " = " + "$";
    Cat5(col, " = ", "$", Itoa(n), rest);
    Cat3("$", Itoa(n), rest);
    assert col + " = $" + Itoa(n) + rest == col + (" = " + mark);
    IdentRunOf(col, " = " + mark);
    Drops(" = ", mark);
    Drops("$", Itoa(n) + rest);
    ReadMarkOf(n, rest);
  }

  lemma ReadBump(col: string)
    requires W.Identifier(col)
    ensures ReadItem(col + " = " + col + " + 1") == Some((Bump(col), ""))
  {
    var body := col + " + 1";
    assert col + " = " + col + " + 1" == col + (" = " + body);
    IdentRunOf(col, " = " + body);
    Drops(" = ", body);
    Drops(body, "");
    assert body + "" == body;
    Differs(body, "$", 0);
  }

  /** tail is "" or ", " and more items. */
  lemma ReadSetStep(s: string, item: SetItem, tail: string, items: seq<SetItem>)
    requires ReadItem(s + ", " + tail) == Some((item, ", " + tail)) && ReadSet(tail) == Some(items)
    requires forall i :: 0 <= i < |items| ==> items[i].col != item.col
    ensures ReadSet(s + ", " + tail) == Some([item] + items)
  {
    Drops(", ", tail);
  }

  ghost predicate Idents(cols: seq<string>) { forall i :: 0 <= i < |cols| ==> W.Identifier(cols[i]) }

  lemma {:induction false} ReadSetList(cols: seq<string>, n: nat)
    requires cols != [] && Idents(cols) && Ascending(cols)
    ensures ReadSet(Join(SetParts(cols, n), ", ")) == Some(Assigns(cols, n))
    decreases |cols|
  {
    hide ReadSet, ReadItem, Itoa, Less;
    var s := cols[0] + " = $" + Itoa(n);
    if |cols| == 1 {
      ReadAssign(cols[0], n, "");
      assert s + "" == s;
      assert SetParts(cols, n) == [s] && Join([s], ", ") == s;
      ReadSetOne(s, Assign(cols[0], n));
      assert Assigns(cols, n) == [Assign(cols[0], n)];
    } else {
      var tail := Join(SetParts(cols[1..], n + 1), ", ");
      assert Join(SetParts(cols, n), ", ") == s + ", " + tail;
      ReadSetList(cols[1..], n + 1);
      ReadAssign(cols[0], n, ", " + tail);
      Cat3(s, ", ", tail);
      AscendingDistinct(cols);
      ReadSetStep(s, Assign(cols[0], n), tail, Assigns(cols[1..], n + 1));
    }
  }

  lemma ReadSetOne(s: string, item: SetItem)
    requires ReadItem(s) == Some((item, ""))
    ensures ReadSet(s) == Some([item])
  {}

  lemma AscendingDistinct(cols: seq<string>)
    requires Ascending(cols)
    ensures forall i, j :: 0 <= i < j < |cols| ==> cols[i] != cols[j]
  {
    forall i, j | 0 <= i < j < |cols| ensures cols[i] != cols[j] {
      LessIrreflexive(cols[i]);
    }
  }

  ghost function WithBump(items: seq<SetItem>, version: string): seq<SetItem> { items + [Bump(version)] }

  lemma {:induction false} ReadSetBump(cols: seq<string>, n: nat, version: string)
    requires cols != [] && Idents(cols) && Ascending(cols) && W.Identifier(version)
    ensures ReadSet(Join(SetParts(cols, n), ", ") + ", " + (version + " = " + version + " + 1"))
         == if version in cols then None else Some(WithBump(Assigns(cols, n), version))
    decreases |cols|
  {
    hide ReadSet, ReadItem, Itoa, Less;
    var s, bump := cols[0] + " = $" + Itoa(n), version + " = " + version + " + 1";
    var item := Assign(cols[0], n);
    if |cols| == 1 {
      assert SetParts(cols, n) == [s] && Join([s], ", ") == s;
      ReadBump(version);
      ReadSetOne(bump, Bump(version));
      ReadAssign(cols[0], n, ", " + bump);
      Cat3(s, ", ", bump);
      assert Assigns(cols, n) == [item];
      ReadSetCons(s, item, bump, [Bump(version)]);
      assert [Bump(version)][0].col == version;
      assert version in cols <==> version == cols[0];
      assert WithBump([item], version) == [item] + [Bump(version)];
    } else {
      var tail := Join(SetParts(cols[1..], n + 1), ", ");
      assert Join(SetParts(cols, n), ", ") == s + ", " + tail;
      var more := tail + ", " + bump;
      ReadSetBump(cols[1..], n + 1, version);
      ReadAssign(cols[0], n, ", " + more);
      Cat5(s, ", ", tail, ", ", bump);
      Cat3(tail, ", ", bump);
      Cat3(s, ", ", more);
      AscendingDistinct(cols);
      if version in cols[1..] {
        ReadSetFails(s, item, more);
      } else {
        var items := WithBump(Assigns(cols[1..], n + 1), version);
        ReadSetCons(s, item, more, items);
        assert items[|items| - 1].col == version;
        assert version in cols <==> version == cols[0];
        assert [item] + WithBump(Assigns(cols[1..], n + 1), version) == WithBump(Assigns(cols, n), version);
      }
    }
  }

  lemma ReadSetCons(s: string, item: SetItem, tail: string, items: seq<SetItem>)
    requires ReadItem(s + ", " + tail) == Some((item, ", " + tail)) && ReadSet(tail) == Some(items)
    ensures ReadSet(s + ", " + tail)
         == if exists i :: 0 <= i < |items| && items[i].col == item.col then None else Some([item] + items)
  {
    Drops(", ", tail);
  }

  lemma ReadSetFails(s: string, item: SetItem, tail: string)
    requires ReadItem(s + ", " + tail) == Some((item, ", " + tail)) && ReadSet(tail) == None
    ensures ReadSet(s + ", " + tail) == None
  {
    Drops(", ", tail);
  }
}
