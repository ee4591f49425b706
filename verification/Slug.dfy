/** Slugs: the name-to-slug conversion, the grammar they must match, and the search for a free one. */
module Slug {
  import opened Common
  import opened Text

  /** The character tables of the Unicode standard, as far as they are looked at. */
  datatype Tables = Tables(lower: char -> char, alnum: char -> bool)

  predicate Ascii(c: char) { c as int < 128 }

  predicate SlugChar(c: char) { 'a' <= c <= 'z' || '0' <= c <= '9' }

  function AsciiLower(c: char): char {
    if 'A' <= c <= 'Z' then (c as int + 32) as char else c
  }

  /** On ASCII the tables are the familiar ones. */
  ghost predicate Standard(u: Tables) {
    forall c :: Ascii(c) ==> u.lower(c) == AsciiLower(c) && (u.alnum(c) <==> SlugChar(c) || 'A' <= c <= 'Z')
  }

  function ToLower(u: Tables, s: string): (l: string)
    ensures |l| == |s| && forall i :: 0 <= i < |s| ==> l[i] == u.lower(s[i])
  {
    if s == "" then "" else [u.lower(s[0])] + ToLower(u, s[1..])
  }

  // ----------------------------------------------------- words, the reference

  function Run(u: Tables, l: string): (k: nat)
    ensures k <= |l| && (forall i :: 0 <= i < k ==> u.alnum(l[i])) && (k < |l| ==> !u.alnum(l[k]))
  {
    if l == "" || !u.alnum(l[0]) then 0 else 1 + Run(u, l[1..])
  }

  /** The maximal runs of letters and digits. */
  function Words(u: Tables, l: string): (ws: seq<string>)
    ensures forall w :: w in ws ==> w != "" && forall i :: 0 <= i < |w| ==> u.alnum(w[i]) && w[i] in l
    decreases |l|
  {
    if l == "" then []
    else if !u.alnum(l[0]) then Words(u, l[1..])
    else var k := Run(u, l); [l[..k]] + Words(u, l[k..])
  }

  function SlugOf(u: Tables, name: string): string { Join(Words(u, ToLower(u, name)), "-") }

  lemma {:induction false} RunSnoc(u: Tables, l: string, c: char)
    ensures Run(u, l + [c]) == if Run(u, l) < |l| then Run(u, l) else if u.alnum(c) then |l| + 1 else |l|
  {
    if l != "" {
      assert (l + [c])[1..] == l[1..] + [c];
      RunSnoc(u, l[1..], c);
    }
  }

  predicate EndsInWord(u: Tables, l: string) { l != "" && u.alnum(l[|l| - 1]) }

  /** The words after one more character. */
  function Grown(u: Tables, l: string, c: char, ws: seq<string>): seq<string> {
    if !u.alnum(c) then ws
    else if EndsInWord(u, l) && ws != [] then ws[..|ws| - 1] + [ws[|ws| - 1] + [c]]
    else ws + [[c]]
  }

  lemma {:induction false} WordsSnoc(u: Tables, l: string, c: char)
    ensures Words(u, l + [c]) == Grown(u, l, c, Words(u, l))
    ensures EndsInWord(u, l) ==> Words(u, l) != []
    decreases |l|
  {
    if l == "" {
      assert l + [c] == [c];
      WordsOne(u, c);
    } else if !u.alnum(l[0]) {
      assert (l + [c])[1..] == l[1..] + [c];
      WordsSnoc(u, l[1..], c);
    } else {
      var k := Run(u, l);
      RunSnoc(u, l, c);
      if k < |l| {
        WordsSnoc(u, l[k..], c);
        GrownInRest(u, l, c);
      } else {
        WholeRun(u, l);
        if u.alnum(c) {
          WholeRun(u, l + [c]);
        } else {
          WordsOne(u, c);
          assert (l + [c])[..k] == l && (l + [c])[k..] == [c];
        }
      }
    }
  }

  lemma WordsOne(u: Tables, c: char)
    ensures Words(u, [c]) == if u.alnum(c) then [[c]] else []
  {
    if u.alnum(c) { WholeRun(u, [c]); } else { assert [c][1..] == ""; }
  }

  lemma GrownInRest(u: Tables, l: string, c: char)
    requires l != "" && u.alnum(l[0]) && Run(u, l) == Run(u, l + [c]) < |l|
    requires var rest := l[Run(u, l)..];
      Words(u, rest + [c]) == Grown(u, rest, c, Words(u, rest)) && (EndsInWord(u, rest) ==> Words(u, rest) != [])
    ensures Words(u, l + [c]) == Grown(u, l, c, Words(u, l)) && Words(u, l) != []
  {
    var k := Run(u, l);
    FirstRun(u, l);
    FirstRun(u, l + [c]);
    hide Words, Run, Grown, EndsInWord;
    SliceSnoc(l, k, c);
    GrownAfter(u, l[..k], l[k..], c, Words(u, l[k..]));
  }

  lemma SliceSnoc(l: string, k: nat, c: char)
    requires k <= |l|
    ensures (l + [c])[..k] == l[..k] && (l + [c])[k..] == l[k..] + [c] && l[..k] + l[k..] == l
  {}

  lemma FirstRun(u: Tables, l: string)
    requires l != "" && u.alnum(l[0])
    ensures Words(u, l) == [l[..Run(u, l)]] + Words(u, l[Run(u, l)..])
  {}

  lemma GrownAfter(u: Tables, first: string, rest: string, c: char, ws: seq<string>)
    requires rest != "" && (EndsInWord(u, rest) ==> ws != [])
    ensures Grown(u, first + rest, c, [first] + ws) == [first] + Grown(u, rest, c, ws)
  {
    var l := first + rest;
    assert l[|l| - 1] == rest[|rest| - 1];
    assert EndsInWord(u, l) == EndsInWord(u, rest);
    if ws != [] {
      assert ([first] + ws)[..|ws|] == [first] + ws[..|ws| - 1];
    }
  }

  lemma WholeRun(u: Tables, l: string)
    requires l != "" && Run(u, l) == |l|
    ensures Words(u, l) == [l]
  {
    assert l[..|l|] == l && l[|l|..] == "";
  }

  lemma {:induction false} JoinExtend(ws: seq<string>, c: char, sep: string)
    requires ws != []
    ensures Join(ws[..|ws| - 1] + [ws[|ws| - 1] + [c]], sep) == Join(ws, sep) + [c]
  {
    var n := |ws| - 1;
    if n == 0 {
      assert ws[..n] == [];
    } else {
      JoinSnoc(ws[..n], ws[n] + [c], sep);
      JoinSnoc(ws[..n], ws[n], sep);
      assert ws[..n] + [ws[n]] == ws;
    }
  }

  // ------------------------------------------------------------- the conversion

  function TrimRight(s: string): string { if s != "" && s[|s| - 1] == '-' then TrimRight(s[..|s| - 1]) else s }

  function TrimLeft(s: string): string { if s != "" && s[0] == '-' then TrimLeft(s[1..]) else s }

  /** What the builder holds: the words so far, and a hyphen once the last one is over. */
  function Building(u: Tables, l: string): string {
    Join(Words(u, l), "-") + if Words(u, l) != [] && !EndsInWord(u, l) then "-" else ""
  }

  lemma NoneOrOne(c: char)
    ensures Join([], "-") == "" && Join([[c]], "-") == [c] && [] + [[c]] == [[c]]
  {}

  lemma BuildingStep(u: Tables, l: string, c: char)
    ensures u.alnum(c) ==> Building(u, l + [c]) == Building(u, l) + [c]
    ensures !u.alnum(c) ==>
              Building(u, l + [c]) == Building(u, l) + if Words(u, l) != [] && EndsInWord(u, l) then "-" else ""
  {
    WordsSnoc(u, l, c);
    hide Words, Join;
    var ws := Words(u, l);
    assert EndsInWord(u, l + [c]) <==> u.alnum(c);
    NoneOrOne(c);
    if u.alnum(c) && ws != [] {
      if EndsInWord(u, l) { JoinExtend(ws, c, "-"); } else { JoinSnoc(ws, [c], "-"); }
    }
  }

  lemma {:induction false} JoinEnds(u: Tables, ws: seq<string>)
    requires ws != [] && forall w :: w in ws ==> w != "" && u.alnum(w[0]) && u.alnum(w[|w| - 1])
    ensures var s := Join(ws, "-"); s != "" && u.alnum(s[0]) && u.alnum(s[|s| - 1])
  {
    if |ws| > 1 {
      JoinEnds(u, ws[1..]);
    }
  }

  lemma TrimBuilding(u: Tables, l: string)
    requires !u.alnum('-')
    ensures TrimLeft(TrimRight(Building(u, l))) == Join(Words(u, l), "-")
    ensures Building(u, l) != "" <==> Words(u, l) != []
  {
    var ws := Words(u, l);
    if ws != [] {
      JoinEnds(u, ws);
      if !EndsInWord(u, l) {
        assert Building(u, l)[..|Building(u, l)| - 1] == Join(ws, "-");
      }
    }
  }

  method Slugify(u: Tables, name: string) returns (slug: string)
    requires Standard(u)
    ensures slug == SlugOf(u, name)
  {
    hide Words, Building;
    var l := ToLower(u, name);
    var b := "";
    var prevHyphen := false;
    NothingBuilt(u);
    for i := 0 to |l|
      invariant b == Building(u, l[..i])
      invariant prevHyphen <==> b != "" && !EndsInWord(u, l[..i])
    {
      assert l[..i + 1] == l[..i] + [l[i]];
      BuildingStep(u, l[..i], l[i]);
      TrimBuilding(u, l[..i]);
      TrimBuilding(u, l[..i + 1]);
      if u.alnum(l[i]) {
        b := b + [l[i]];
        prevHyphen := false;
      } else if !prevHyphen && |b| > 0 {
        b := b + "-";
        prevHyphen := true;
      }
    }
    assert l[..|l|] == l;
    TrimBuilding(u, l);
    slug := TrimLeft(TrimRight(b));
  }

  lemma NothingBuilt(u: Tables)
    ensures Building(u, "") == ""
  {}

  // ---------------------------------------------------------------- the grammar

  /** One or more non-empty groups of lower-case letters and digits, separated by single hyphens. */
  predicate IsSlug(s: string) {
    forall w :: w in Split(s, '-') ==> w != "" && forall i :: 0 <= i < |w| ==> SlugChar(w[i])
  }

  lemma {:induction false} SplitJoin(ws: seq<string>)
    requires ws != [] && forall w :: w in ws ==> Lacks(w, '-')
    ensures Split(Join(ws, "-"), '-') == ws
  {
    if |ws| == 1 {
      SplitLast(ws[0], '-');
    } else {
      SplitJoin(ws[1..]);
      SplitStep(ws[0], Join(ws[1..], "-"), '-');
    }
  }

  /** Every letter or digit of the name becomes one the grammar knows. */
  ghost predicate Foldable(u: Tables, name: string) {
    forall c :: c in name && u.alnum(u.lower(c)) ==> SlugChar(u.lower(c))
  }

  ghost predicate HasAlnum(u: Tables, name: string) { exists c :: c in name && u.alnum(u.lower(c)) }

  /** Every letter or digit is in some word, and nothing else is. */
  lemma {:induction false} WordsCover(u: Tables, l: string, c: char)
    requires u.alnum(c)
    ensures c in l <==> exists w :: w in Words(u, l) && c in w
    decreases |l|
  {
    if l != "" {
      var k := if u.alnum(l[0]) then Run(u, l) else 1;
      WordsCover(u, l[k..], c);
      var ws := Words(u, l[k..]);
      assert l == l[..k] + l[k..];
      if u.alnum(l[0]) {
        assert Words(u, l) == [l[..k]] + ws;
        if c in l[..k] { assert l[..k] in Words(u, l); }
        if c in l[k..] {
          var w :| w in ws && c in w;
          assert w in Words(u, l);
        }
      } else {
        assert l[..k] == [l[0]] && Words(u, l) == ws;
      }
    }
  }

  lemma Lowered(u: Tables, name: string, d: char)
    ensures d in ToLower(u, name) <==> exists c :: c in name && u.lower(c) == d
  {
    var l := ToLower(u, name);
    if d in l {
      var i :| 0 <= i < |l| && l[i] == d;
      assert name[i] in name;
    }
    if c :| c in name && u.lower(c) == d {
      var i :| 0 <= i < |name| && name[i] == c;
      assert l[i] == d;
    }
  }

  /** The slug of a name matches the grammar if and only if the name has a letter or digit and all of them fold into the grammar. */
  lemma SlugExactly(u: Tables, name: string)
    requires Standard(u)
    ensures IsSlug(SlugOf(u, name)) <==> HasAlnum(u, name) && Foldable(u, name)
  {
    var l := ToLower(u, name);
    var ws := Words(u, l);
    assert !u.alnum('-');
    if ws == [] {
      SplitLast("", '-');
      if c :| c in name && u.alnum(u.lower(c)) {
        Lowered(u, name, u.lower(c));
        WordsCover(u, l, u.lower(c));
      }
    } else {
      SplitJoin(ws);
      WordIsFromName(u, name, ws[0][0], ws[0]);
      forall w, i | w in ws && 0 <= i < |w| ensures Foldable(u, name) ==> SlugChar(w[i]) {
        WordIsFromName(u, name, w[i], w);
      }
      forall c | c in name && u.alnum(u.lower(c)) ensures IsSlug(SlugOf(u, name)) ==> SlugChar(u.lower(c)) {
        Lowered(u, name, u.lower(c));
        WordsCover(u, l, u.lower(c));
      }
    }
  }

  lemma WordIsFromName(u: Tables, name: string, d: char, w: string)
    requires w in Words(u, ToLower(u, name)) && d in w
    ensures u.alnum(d) && exists c :: c in name && u.lower(c) == d
  {
    Lowered(u, name, d);
  }

  /** For an ASCII name, a letter or digit anywhere is enough. */
  lemma AsciiNames(u: Tables, name: string)
    requires Standard(u) && forall c :: c in name ==> Ascii(c)
    ensures IsSlug(SlugOf(u, name)) <==> exists c :: c in name && (SlugChar(c) || 'A' <= c <= 'Z')
  {
    SlugExactly(u, name);
    forall c | c in name ensures u.alnum(u.lower(c)) <==> SlugChar(c) || 'A' <= c <= 'Z' {
      assert Ascii(AsciiLower(c));
    }
  }

  /** Slugs are fixed points. */
  lemma SlugsAreFixed(u: Tables, s: string)
    requires Standard(u) && IsSlug(s)
    ensures SlugOf(u, s) == s
  {
    var ws := Split(s, '-');
    SlugCharsOnly(s);
    assert ToLower(u, s) == s;
    WordsOfSplit(u, s);
    JoinSplit(s);
  }

  /** Converting twice is converting once, for every name whose letters and digits fold into the grammar, ASCII names among them. */
  lemma Idempotent(u: Tables, name: string)
    requires Standard(u) && Foldable(u, name)
    ensures SlugOf(u, SlugOf(u, name)) == SlugOf(u, name)
  {
    SlugExactly(u, name);
    if HasAlnum(u, name) {
      SlugsAreFixed(u, SlugOf(u, name));
    } else if Words(u, ToLower(u, name)) != [] {
      var w := Words(u, ToLower(u, name))[0];
      WordIsFromName(u, name, w[0], w);
    }
  }

  lemma FirstPiece(s: string)
    ensures s[..Until(s, '-')] in Split(s, '-')
  {
    assert Split(s, '-')[0] == s[..Until(s, '-')];
  }

  lemma {:induction false} SlugCharsOnly(s: string)
    requires IsSlug(s)
    ensures forall i :: 0 <= i < |s| ==> SlugChar(s[i]) || s[i] == '-'
    decreases |s|
  {
    var k := Until(s, '-');
    FirstPiece(s);
    if k < |s| {
      assert Split(s, '-')[1..] == Split(s[k + 1..], '-');
      SlugCharsOnly(s[k + 1..]);
      assert forall i :: 0 <= i < k ==> s[i] == s[..k][i];
      assert forall i :: k < i < |s| ==> s[i] == s[k + 1..][i - k - 1];
    }
  }

  lemma {:induction false} WordsOfSplit(u: Tables, s: string)
    requires Standard(u) && IsSlug(s)
    ensures Words(u, s) == Split(s, '-')
    decreases |s|
  {
    var k := Until(s, '-');
    var w := s[..k];
    FirstPiece(s);
    assert w != "" && forall i :: 0 <= i < k ==> u.alnum(w[i]);
    RunIs(u, w, s[k..]);
    assert w + s[k..] == s;
    if k < |s| {
      assert Split(s, '-')[1..] == Split(s[k + 1..], '-');
      WordsOfSplit(u, s[k + 1..]);
      assert s[k..][1..] == s[k + 1..];
    }
  }

  lemma {:induction false} RunIs(u: Tables, w: string, rest: string)
    requires (forall i :: 0 <= i < |w| ==> u.alnum(w[i])) && (rest == "" || !u.alnum(rest[0]))
    ensures Run(u, w + rest) == |w|
  {
    if w == "" {
      assert w + rest == rest;
    } else {
      assert (w + rest)[1..] == w[1..] + rest;
      RunIs(u, w[1..], rest);
    }
  }

  lemma {:induction false} JoinSplit(s: string)
    ensures Join(Split(s, '-'), "-") == s
    decreases |s|
  {
    var k := Until(s, '-');
    if k < |s| {
      JoinSplit(s[k + 1..]);
      assert Split(s, '-')[1..] == Split(s[k + 1..], '-');
      assert s == s[..k] + "-" + s[k + 1..];
    }
  }

  // ----------------------------------------------------- duplicating a project

  function Candidate(slug: string, i: nat): string { if i == 0 then slug else slug + "-" + Itoa(i) }

  lemma CandidateNames(slug: string)
    ensures Candidate(slug, 0) == slug && Candidate(slug, 1) == slug + "-1" && Candidate(slug, 12) == slug + "-12"
  {
    assert Itoa(12) == Itoa(1) + [Digit(2)];
  }

  lemma CandidatesDiffer(slug: string, i: nat, j: nat)
    requires Candidate(slug, i) == Candidate(slug, j)
    ensures i == j
  {
    if i > 0 && j > 0 {
      assert Candidate(slug, i)[|slug| + 1..] == Itoa(i);
      assert Candidate(slug, j)[|slug| + 1..] == Itoa(j);
      ItoaInjective(i, j);
    }
  }

  /** n different candidates, all taken, need n taken slugs. */
  lemma {:induction false} Pigeonhole(slug: string, n: nat, taken: set<string>)
    requires forall i :: 0 <= i < n ==> Candidate(slug, i) in taken
    ensures n <= |taken|
  {
    if n > 0 {
      var rest := taken - {Candidate(slug, n - 1)};
      forall i | 0 <= i < n - 1 ensures Candidate(slug, i) in rest {
        if Candidate(slug, i) == Candidate(slug, n - 1) { CandidatesDiffer(slug, i, n - 1); }
      }
      Pigeonhole(slug, n - 1, rest);
    }
  }

  /** broken(i): the i-th lookup fails; the search gives up with its error. */
  method FreeSlug(slug: string, taken: set<string>, broken: nat -> bool) returns (r: Result<string>, tries: nat)
    ensures 1 <= tries <= |taken| + 1
    ensures forall i :: 0 <= i < tries - 1 ==> Candidate(slug, i) in taken && !broken(i)
    ensures r.Err? <==> broken(tries - 1)
    ensures r.Ok? ==> r.value == Candidate(slug, tries - 1) && r.value !in taken
  {
    var i := 0;
    while true
      invariant forall k :: 0 <= k < i ==> Candidate(slug, k) in taken && !broken(k)
      invariant i <= |taken|
      decreases |taken| - i
    {
      var candidate := slug;
      if i > 0 {
        candidate := slug + "-" + Itoa(i);
      }
      assert candidate == Candidate(slug, i);
      if broken(i) {
        return Err(Internal), i + 1;
      }
      if candidate !in taken {
        return Ok(candidate), i + 1;
      }
      Pigeonhole(slug, i + 1, taken);
      i := i + 1;
    }
  }

  /** A suffixed candidate is in the grammar exactly when the slug itself is. */
  lemma CandidateGrammar(slug: string, i: nat)
    ensures IsSlug(Candidate(slug, i)) <==> IsSlug(slug)
  {
    if i > 0 {
      DigitsAreOneGroup(Itoa(i));
      SplitSuffix(slug, Itoa(i));
      var parts := Split(slug, '-');
      assert Split(Candidate(slug, i), '-') == parts + [Itoa(i)];
      assert forall w :: w in parts + [Itoa(i)] <==> w in parts || w == Itoa(i);
    }
  }

  lemma DigitsAreOneGroup(d: string)
    requires AllDigits(d)
    ensures Lacks(d, '-') && forall i :: 0 <= i < |d| ==> SlugChar(d[i])
  {}

  lemma {:induction false} SplitSuffix(s: string, last: string)
    requires Lacks(last, '-')
    ensures Split(s + "-" + last, '-') == Split(s, '-') + [last]
    decreases |s|
  {
    var k := Until(s, '-');
    if k == |s| {
      SplitStep(s, last, '-');
      SplitLast(last, '-');
    } else {
      SplitSuffix(s[k + 1..], last);
      SuffixStep(s[..k], s[k + 1..], last);
      assert s == s[..k] + "-" + s[k + 1..];
    }
  }

  lemma SuffixStep(first: string, rest: string, last: string)
    requires Lacks(first, '-') && Split(rest + "-" + last, '-') == Split(rest, '-') + [last]
    ensures Split(first + "-" + rest + "-" + last, '-') == Split(first + "-" + rest, '-') + [last]
  {
    hide Split, Lacks;
    SplitStep(first, rest, '-');
    SplitStep(first, rest + "-" + last, '-');
    MoveSuffix(first, rest, last);
  }

  lemma MoveSuffix(a: string, b: string, c: string)
    ensures (a + "-" + b) + "-" + c == a + "-" + (b + "-" + c)
  {}

  /** The whole of it: the duplicate's slug is free, and well formed exactly when the new name's is. */
  method Duplicate(u: Tables, sourceName: string, newName: string, taken: set<string>, broken: nat -> bool) returns (r: Result<string>)
    requires Standard(u)
    ensures r.Ok? ==> r.value !in taken
    ensures r.Ok? ==>
              var slug := SlugOf(u, if newName == "" then sourceName + " Copy" else newName);
              exists i: nat :: r.value == Candidate(slug, i) && forall j :: 0 <= j < i ==> Candidate(slug, j) in taken
    ensures r.Ok? ==>
              var name := if newName == "" then sourceName + " Copy" else newName;
              IsSlug(r.value) <==> HasAlnum(u, name) && Foldable(u, name)
  {
    var name := newName;
    if name == "" {
      name := sourceName + " Copy";
    }
    var slug := Slugify(u, name);
    var tries: nat;
    r, tries := FreeSlug(slug, taken, broken);
    SlugExactly(u, name);
    CandidateGrammar(slug, tries - 1);
  }
}
