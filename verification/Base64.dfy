/** Unpadded standard base64: sections 3.2 and 4 of RFC 4648. */
module Base64 {
  import opened Common
  import opened Text

  type Byte = x: int | 0 <= x < 256

  type Sextet = x: int | 0 <= x < 64

  function Letter(v: Sextet): (c: char)
    ensures Value(c) == Some(v)
    ensures c != '$' && c != '\r' && c != '\n'
  {
    if v < 26 then ('A' as int + v) as char
    else if v < 52 then ('a' as int + (v - 26)) as char
    else if v < 62 then ('0' as int + (v - 52)) as char
    else if v == 62 then '+'
    else '/'
  }

  function Value(c: char): Option<Sextet> {
    if 'A' <= c <= 'Z' then Some(c as int - 'A' as int)
    else if 'a' <= c <= 'z' then Some(c as int - 'a' as int + 26)
    else if '0' <= c <= '9' then Some(c as int - '0' as int + 52)
    else if c == '+' then Some(62)
    else if c == '/' then Some(63)
    else None
  }

  function Encode(b: seq<Byte>): (s: string)
    ensures forall i :: 0 <= i < |s| ==> Value(s[i]).Some?
  {
    if b == [] then ""
    else if |b| == 1 then [Letter(b[0] / 4), Letter(b[0] % 4 * 16)]
    else if |b| == 2 then [Letter(b[0] / 4), Letter(b[0] % 4 * 16 + b[1] / 16), Letter(b[1] % 16 * 4)]
    else [Letter(b[0] / 4), Letter(b[0] % 4 * 16 + b[1] / 16), Letter(b[1] % 16 * 4 + b[2] / 64), Letter(b[2] % 64)]
         + Encode(b[3..])
  }

  /** Line breaks anywhere in the input are skipped. */
  function Unbroken(s: string): string {
    if s == "" then ""
    else if s[0] == '\r' || s[0] == '\n' then Unbroken(s[1..])
    else [s[0]] + Unbroken(s[1..])
  }

  /** Left-over bits of a short last group are dropped without a look. */
  function Groups(s: string): Option<seq<Byte>> {
    if s == "" then Some([])
    else if |s| == 1 then None
    else if Value(s[0]) == None || Value(s[1]) == None then None
    else
      var a, b := Value(s[0]).value, Value(s[1]).value;
      var first := a * 4 + b / 16;
      if |s| == 2 then Some([first])
      else if Value(s[2]) == None then None
      else
        var c := Value(s[2]).value;
        var second := b % 16 * 16 + c / 4;
        if |s| == 3 then Some([first, second])
        else if Value(s[3]) == None then None
        else match Groups(s[4..])
             case None => None
             case Some(rest) => Some([first, second, c % 4 * 64 + Value(s[3]).value] + rest)
  }

  function Decode(s: string): Option<seq<Byte>> { Groups(Unbroken(s)) }

  lemma {:induction false} UnbrokenOf(s: string)
    requires forall i :: 0 <= i < |s| ==> Value(s[i]).Some?
    ensures Unbroken(s) == s
  {
    if s != "" {
      UnbrokenOf(s[1..]);
      assert s == [s[0]] + s[1..];
    }
  }

  lemma {:induction false} GroupsOf(b: seq<Byte>)
    ensures Groups(Encode(b)) == Some(b)
  {
    if |b| >= 3 {
      GroupsOf(b[3..]);
      Triple(b[0], b[1], b[2]);
      assert Encode(b)[4..] == Encode(b[3..]);
      assert b == [b[0], b[1], b[2]] + b[3..];
    } else if |b| == 2 {
      Triple(b[0], b[1], 0);
      assert b == [b[0], b[1]];
    } else if |b| == 1 {
      Triple(b[0], 0, 0);
      assert b == [b[0]];
    }
  }

  /** Three bytes regrouped into sextets and back. */
  lemma Triple(x: Byte, y: Byte, z: Byte)
    ensures x % 4 * 16 + y / 16 < 64 && y % 16 * 4 + z / 64 < 64
    ensures (x / 4) * 4 + (x % 4 * 16 + y / 16) / 16 == x
    ensures (x % 4 * 16 + y / 16) % 16 * 16 + (y % 16 * 4 + z / 64) / 4 == y
    ensures (y % 16 * 4 + z / 64) % 4 * 64 + z % 64 == z
  {}

  lemma RoundTrip(b: seq<Byte>)
    ensures Decode(Encode(b)) == Some(b)
  {
    UnbrokenOf(Encode(b));
    GroupsOf(b);
  }

  /** Sextets are written in the standard alphabet, and four of them are three bytes, most significant bits first. */
  lemma Standard(v: Sextet, a: Byte, b: Byte, c: Byte)
    ensures Letter(0) == 'A' && Letter(26) == 'a' && Letter(52) == '0' && Letter(62) == '+' && Letter(63) == '/'
    ensures v !in {25, 51, 61, 62, 63} ==> Letter(v + 1) as int == Letter(v) as int + 1
    ensures var s := Encode([a, b, c]);
            |s| == 4 && (forall i :: 0 <= i < 4 ==> Value(s[i]).Some?)
            && ((Value(s[0]).value * 64 + Value(s[1]).value) * 64 + Value(s[2]).value) * 64 + Value(s[3]).value == (a * 256 + b) * 256 + c
  {
    assert [a, b, c][3..] == [];
  }

  /** One or two bytes are written as if zero bits followed, without the letters that would hold only those. */
  lemma ShortGroups(a: Byte, b: Byte)
    ensures Encode([a]) == Encode([a, 0, 0])[..2] && Encode([a, b]) == Encode([a, b, 0])[..3]
  {
    assert [a, 0, 0][3..] == [] && [a, b, 0][3..] == [];
  }

  /** Line breaks in the input make no difference, wherever they stand. */
  lemma {:induction false} BreaksSkipped(s: string, t: string, c: char)
    requires c == '\r' || c == '\n'
    ensures Decode(s + [c] + t) == Decode(s + t)
  {
    UnbrokenSkips(s, t, c);
  }

  lemma {:induction false} UnbrokenSkips(s: string, t: string, c: char)
    requires c == '\r' || c == '\n'
    ensures Unbroken(s + [c] + t) == Unbroken(s + t)
  {
    if s == "" {
      assert s + [c] + t == [c] + t && s + t == t;
    } else {
      assert (s + [c] + t)[1..] == s[1..] + [c] + t && (s + t)[1..] == s[1..] + t;
      UnbrokenSkips(s[1..], t, c);
    }
  }
}
