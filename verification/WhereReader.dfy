/**
  An independent reading of a WHERE clause: the fragment of the SQL search
  condition grammar with AND binding tighter than OR, and three-valued truth.
 */
module WhereReader {
  import opened Common
  import opened Text
  import opened Conditions

  datatype Sql =
    | False
    | Cmp(op: Op, col: string, mark: nat)
    | OneOf(col: string, marks: seq<nat>)
    | IsNull(col: string)
    | And(terms: seq<Sql>)
    | Or(terms: seq<Sql>)

  type Parsed<T> = Option<(T, string)>

  /** Characters of a column operand: plain, qualified, quoted, subscripted, cast or non-ASCII names without blanks. */
  predicate IsIdent(c: char) {
    'a' <= c <= 'z' || 'A' <= c <= 'Z' || IsDigit(c) || c == '_' || c == '.' || c == '"'
    || c == ':' || c == '[' || c == ']' || c as int >= 128
  }

  predicate Identifier(s: string) { s != "" && forall i :: 0 <= i < |s| ==> IsIdent(s[i]) }

  function IdentRun(s: string): (k: nat)
    ensures k <= |s|
  {
    if s == "" || !IsIdent(s[0]) then 0 else 1 + IdentRun(s[1..])
  }

  /** "$" and a numeral. */
  function ReadMark(s: string): (r: Parsed<nat>)
    ensures r.Some? ==> |r.value.1| < |s|
  {
    if s == "" || s[0] != '$' then None
    else
      var d := DigitRun(s[1..]);
      if d == 0 then None else Some((Number(s[1..][..d]), s[1..][d..]))
  }

  /** The rest of a mark list, after its first mark. */
  function ReadMarks(marks: seq<nat>, s: string): Parsed<seq<nat>>
    decreases |s|
  {
    if StartsWith(s, ")") then Some((marks, s[1..]))
    else if StartsWith(s, ", ") then
      match ReadMark(s[2..])
      case None => None
      case Some((m, rest)) => ReadMarks(marks + [m], rest)
    else None
  }

  function ReadOp(s: string): Parsed<Op> {
    if StartsWith(s, " = ") then Some((OpEq, s[3..]))
    else if StartsWith(s, " <> ") then Some((OpNeq, s[4..]))
    else if StartsWith(s, " > ") then Some((OpGt, s[3..]))
    else if StartsWith(s, " < ") then Some((OpLt, s[3..]))
    else None
  }

  function ReadAtom(s: string): (r: Parsed<Sql>)
  {
    var k := IdentRun(s);
    var col, rest := s[..k], s[k..];
    if k == 0 then None
    else if StartsWith(rest, " IN (") then
      match ReadMark(rest[5..])
      case None => None
      case Some((m, more)) =>
        (match ReadMarks([m], more)
         case None => None
         case Some((marks, end)) => Some((OneOf(col, marks), end)))
    else if StartsWith(rest, " IS NULL") then Some((IsNull(col), rest[8..]))
    else
      match ReadOp(rest)
      case Some((op, more)) =>
        (match ReadMark(more)
         case None => None
         case Some((m, end)) => Some((Cmp(op, col, m), end)))
      case None => if col == "FALSE" then Some((False, rest)) else None
  }

  /** Keeps only results that consumed input, which every success does. */
  function Progress<T>(s: string, r: Parsed<T>): (q: Parsed<T>)
    ensures q.Some? ==> |q.value.1| < |s|
  {
    if r.Some? && |r.value.1| < |s| then r else None
  }

  function ReadPrimary(s: string): (r: Parsed<Sql>)
    ensures r.Some? ==> |r.value.1| < |s|
    decreases |s|, 1
  {
    if StartsWith(s, "(") then
      match ReadOr(s[1..])
      case None => None
      case Some((e, rest)) => if StartsWith(rest, ")") then Some((e, rest[1..])) else None
    else Progress(s, ReadAtom(s))
  }

  function ReadAnd(s: string): (r: Parsed<Sql>)
    ensures r.Some? ==> |r.value.1| < |s|
    decreases |s|, 2
  {
    match ReadPrimary(s)
    case None => None
    case Some((e, rest)) => ReadAndTail([e], rest)
  }

  function ReadAndTail(terms: seq<Sql>, s: string): (r: Parsed<Sql>)
    requires terms != []
    ensures r.Some? ==> |r.value.1| <= |s|
    decreases |s|, 2
  {
    if StartsWith(s, " AND ") then
      match ReadPrimary(s[5..])
      case None => None
      case Some((e, rest)) => ReadAndTail(terms + [e], rest)
    else Some((if |terms| == 1 then terms[0] else And(terms), s))
  }

  function ReadOr(s: string): (r: Parsed<Sql>)
    ensures r.Some? ==> |r.value.1| < |s|
    decreases |s|, 3
  {
    match ReadAnd(s)
    case None => None
    case Some((e, rest)) => ReadOrTail([e], rest)
  }

  function ReadOrTail(terms: seq<Sql>, s: string): (r: Parsed<Sql>)
    requires terms != []
    ensures r.Some? ==> |r.value.1| <= |s|
    decreases |s|, 3
  {
    if StartsWith(s, " OR ") then
      match ReadAnd(s[4..])
      case None => None
      case Some((e, rest)) => ReadOrTail(terms + [e], rest)
    else Some((if |terms| == 1 then terms[0] else Or(terms), s))
  }

  /** A whole clause. */
  function Read(s: string): Option<Sql> {
    match ReadOr(s)
    case Some((e, "")) => Some(e)
    case _ => None
  }

  // ------------------------------------------------------------------ truth

  datatype Truth = Yes | No | Unknown

  function AllOf(ts: seq<Truth>): Truth {
    if ts == [] then Yes
    else
      var rest := AllOf(ts[1..]);
      if ts[0].No? || rest.No? then No else if ts[0].Unknown? || rest.Unknown? then Unknown else Yes
  }

  function AnyOf(ts: seq<Truth>): Truth {
    if ts == [] then No
    else
      var rest := AnyOf(ts[1..]);
      if ts[0].Yes? || rest.Yes? then Yes else if ts[0].Unknown? || rest.Unknown? then Unknown else No
  }

  /** SQL's AND and OR: an operand that is no, or yes, decides; otherwise one that is unknown does. */
  lemma {:induction false} ThreeValued(ts: seq<Truth>)
    ensures AllOf(ts) == No <==> No in ts
    ensures AllOf(ts) == Yes <==> No !in ts && Unknown !in ts
    ensures AnyOf(ts) == Yes <==> Yes in ts
    ensures AnyOf(ts) == No <==> Yes !in ts && Unknown !in ts
  {
    if ts != [] {
      ThreeValued(ts[1..]);
      assert forall t :: t in ts <==> t == ts[0] || t in ts[1..];
    }
  }

  /** What a row knows: how a column compares with a value, and whether it is null. */
  datatype Row = Row(compare: (Op, string, Value) -> Truth, isNull: string -> bool)

  function OneOfTruth(row: Row, col: string, vals: seq<Value>): Truth {
    if vals == [] then No
    else AnyOf([row.compare(OpEq, col, vals[0]), OneOfTruth(row, col, vals[1..])])
  }

  /** SQL's IN: yes when some member equals, no when every member differs. */
  lemma {:induction false} OneOfExactly(row: Row, col: string, vals: seq<Value>)
    ensures OneOfTruth(row, col, vals) == Yes <==> exists v :: v in vals && row.compare(OpEq, col, v) == Yes
    ensures OneOfTruth(row, col, vals) == No <==> forall v :: v in vals ==> row.compare(OpEq, col, v) == No
  {
    if vals != [] {
      OneOfExactly(row, col, vals[1..]);
      var both := [row.compare(OpEq, col, vals[0]), OneOfTruth(row, col, vals[1..])];
      ThreeValued(both);
      assert both[0] in both && both[1] in both;
      assert vals == [vals[0]] + vals[1..];
    }
  }

  function Bound(marks: seq<nat>, bind: nat -> Value): (vals: seq<Value>)
    ensures |vals| == |marks|
  {
    if marks == [] then [] else [bind(marks[0])] + Bound(marks[1..], bind)
  }

  function Eval(e: Sql, row: Row, bind: nat -> Value): Truth
    decreases e, 1
  {
    match e
    case False => No
    case Cmp(op, col, mark) => row.compare(op, col, bind(mark))
    case OneOf(col, marks) => OneOfTruth(row, col, Bound(marks, bind))
    case IsNull(col) => if row.isNull(col) then Yes else No
    case And(terms) => AllOf(EvalAll(terms, row, bind))
    case Or(terms) => AnyOf(EvalAll(terms, row, bind))
  }

  function EvalAll(es: seq<Sql>, row: Row, bind: nat -> Value): (ts: seq<Truth>)
    ensures |ts| == |es|
    decreases es, 0
  {
    if es == [] then [] else [Eval(es[0], row, bind)] + EvalAll(es[1..], row, bind)
  }
}
