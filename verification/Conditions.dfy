/** Composable predicates with "?" placeholders, and their renumbering to $N. */
module Conditions {
  import opened Common
  import opened Text

  /** A bound argument; what it means is up to the reader's comparison. */
  datatype Value = Value(repr: string) | Int(n: int)

  datatype Condition = Condition(clause: string, args: seq<Value>)

  datatype Op = OpEq | OpNeq | OpGt | OpLt

  function OpText(op: Op): string {
    match op case OpEq => " = " case OpNeq => " <> " case OpGt => " > " case OpLt => " < "
  }

  function Compare(op: Op, col: string, val: Value): Condition {
    Condition(col + OpText(op) + "?", [val])
  }

  /** A comparison as SQL spells it. */
  lemma ComparisonText(col: string, val: Value)
    ensures Compare(OpEq, col, val).clause == col + " = ?" && Compare(OpNeq, col, val).clause == col + " <> ?"
    ensures Compare(OpGt, col, val).clause == col + " > ?" && Compare(OpLt, col, val).clause == col + " < ?"
  {}

  function Raw(clause: string, args: seq<Value>): Condition { Condition(clause, args) }

  function Repeat(s: string, n: nat): string { if n == 0 then "" else s + Repeat(s, n - 1) }

  function TrimSuffix(s: string, suffix: string): string {
    if |suffix| <= |s| && s[|s| - |suffix|..] == suffix then s[..|s| - |suffix|] else s
  }

  function In(col: string, vals: seq<Value>): Condition {
    if vals == [] then Condition("FALSE", [])
    else Condition(col + " IN (" + TrimSuffix(Repeat("?, ", |vals|), ", ") + ")", vals)
  }

  /** The white space that trimming removes. */
  predicate IsSpace(c: char) {
    c in "\t\n\U{0B}\U{0C}\r \U{85}\U{A0}\U{1680}\U{2028}\U{2029}\U{202F}\U{205F}\U{3000}" || '\U{2000}' <= c <= '\U{200A}'
  }

  predicate Empty(c: Condition) { forall i :: 0 <= i < |c.clause| ==> IsSpace(c.clause[i]) }

  function NonEmpty(conds: seq<Condition>): seq<Condition> {
    if conds == [] then []
    else if Empty(conds[0]) then NonEmpty(conds[1..])
    else [conds[0]] + NonEmpty(conds[1..])
  }

  function Parens(conds: seq<Condition>): (parts: seq<string>)
    ensures |parts| == |conds|
  {
    if conds == [] then [] else ["(" + conds[0].clause + ")"] + Parens(conds[1..])
  }

  function Args(conds: seq<Condition>): seq<Value> {
    if conds == [] then [] else conds[0].args + Args(conds[1..])
  }

  function Combined(op: string, conds: seq<Condition>): Condition {
    var live := NonEmpty(conds);
    if live == [] then Condition("", []) else Condition(Join(Parens(live), " " + op + " "), Args(live))
  }

  lemma {:induction false} NonEmptySnoc(conds: seq<Condition>, c: Condition)
    ensures NonEmpty(conds + [c]) == NonEmpty(conds) + if Empty(c) then [] else [c]
  {
    if conds != [] {
      assert (conds + [c])[1..] == conds[1..] + [c];
      NonEmptySnoc(conds[1..], c);
    }
  }

  lemma {:induction false} PartsSnoc(conds: seq<Condition>, c: Condition)
    ensures Parens(conds + [c]) == Parens(conds) + ["(" + c.clause + ")"]
    ensures Args(conds + [c]) == Args(conds) + c.args
  {
    if conds == [] {
      assert conds + [c] == [c] && [c][1..] == [];
      assert c.args + [] == [] + c.args;
    } else {
      assert (conds + [c])[1..] == conds[1..] + [c];
      PartsSnoc(conds[1..], c);
    }
  }

  /** The loop of combine computes Combined. */
  method Combine(op: string, conds: seq<Condition>) returns (r: Condition)
    ensures r == Combined(op, conds)
  {
    var parts: seq<string>, args: seq<Value> := [], [];
    for i := 0 to |conds|
      invariant parts == Parens(NonEmpty(conds[..i])) && args == Args(NonEmpty(conds[..i]))
    {
      assert conds[..i + 1] == conds[..i] + [conds[i]];
      NonEmptySnoc(conds[..i], conds[i]);
      if Empty(conds[i]) {
        assert NonEmpty(conds[..i]) + [] == NonEmpty(conds[..i]);
        continue;
      }
      PartsSnoc(NonEmpty(conds[..i]), conds[i]);
      parts := parts + ["(" + conds[i].clause + ")"];
      args := args + conds[i].args;
    }
    assert conds[..|conds|] == conds;
    if |parts| == 0 {
      return Condition("", []);
    }
    r := Condition(Join(parts, " " + op + " "), args);
  }

  // ------------------------------------------------------------ renumbering

  function Marks(s: string): nat { if s == "" then 0 else (if s[0] == '?' then 1 else 0) + Marks(s[1..]) }

  function Renumber(s: string, n: nat): string {
    if s == "" then ""
    else if s[0] == '?' then "$" + Itoa(n) + Renumber(s[1..], n + 1)
    else [s[0]] + Renumber(s[1..], n)
  }

  lemma {:induction false} RenumberConcat(a: string, b: string, n: nat)
    ensures Marks(a + b) == Marks(a) + Marks(b)
    ensures Renumber(a + b, n) == Renumber(a, n) + Renumber(b, n + Marks(a))
  {
    if a == "" {
      assert a + b == b;
    } else {
      assert (a + b)[1..] == a[1..] + b;
      RenumberConcat(a[1..], b, if a[0] == '?' then n + 1 else n);
    }
  }

  lemma {:induction false} RenumberPlain(s: string, n: nat)
    requires Lacks(s, '?')
    ensures Renumber(s, n) == s && Marks(s) == 0
  {
    if s != "" {
      RenumberPlain(s[1..], n);
    }
  }

  /** The loop of build: the clause renumbered from start, and the arguments untouched. */
  method Build(c: Condition, start: nat) returns (text: string, args: seq<Value>)
    ensures Empty(c) ==> text == "" && args == []
    ensures !Empty(c) ==> text == Renumber(c.clause, start) && args == c.args
  {
    if Empty(c) {
      return "", [];
    }
    text := "";
    var n := start;
    for i := 0 to |c.clause|
      invariant n == start + Marks(c.clause[..i]) && text == Renumber(c.clause[..i], start)
    {
      assert c.clause[..i + 1] == c.clause[..i] + [c.clause[i]];
      RenumberConcat(c.clause[..i], [c.clause[i]], start);
      if c.clause[i] == '?' {
        assert Renumber("?", n) == "$" + Itoa(n);
        text := text + "$" + Itoa(n);
        n := n + 1;
        continue;
      }
      RenumberPlain([c.clause[i]], n);
      text := text + [c.clause[i]];
    }
    assert c.clause[..|c.clause|] == c.clause;
    args := c.args;
  }
}
