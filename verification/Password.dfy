/** Argon2id password hashes: the printed form, its parser, and verification over an uninterpreted key derivation. */
module Password {
  import opened Common
  import opened Text
  import opened Base64

  const MAX32: nat := 0xFFFF_FFFF
  const MAX8: nat := 0xFF
  const MAX63: nat := 0x7FFF_FFFF_FFFF_FFFF

  type U32 = x: int | 0 <= x <= 0xFFFF_FFFF

  type U8 = x: int | 0 <= x <= 0xFF

  datatype Params = Params(memory: U32, iterations: U32, parallelism: U8, saltLength: U32, keyLength: U32)

  const DEFAULTS := Params(64 * 1024, 3, 4, 16, 32)

  const DUMMY := "dummy-timing-obfuscation-password"

  /** password, salt, iterations, memory, parallelism, key length; None when the derivation panics. */
  type Kdf = (string, seq<Byte>, U32, U32, U8, U32) -> Option<seq<Byte>>

  ghost predicate KeepsLength(kdf: Kdf) {
    forall p, s, t, m, l, k {:trigger kdf(p, s, t, m, l, k)} :: kdf(p, s, t, m, l, k).Some? ==> |kdf(p, s, t, m, l, k).value| == k
  }

  // ------------------------------------------------------------------ printing

  function Header(memory: nat, iterations: nat, parallelism: nat): string {
    "m=" + Itoa(memory) + (",t=" + Itoa(iterations) + (",p=" + Itoa(parallelism)))
  }

  function HashText(memory: nat, iterations: nat, parallelism: nat, salt: seq<Byte>, key: seq<Byte>): string {
    "$argon2id$v=19$" + Header(memory, iterations, parallelism) + "$" + Encode(salt) + "$" + Encode(key)
  }

  // ------------------------------------------------------------------- parsing

  predicate Blank(c: char) {
    var n := c as int;
    9 <= n <= 13 || n == 0x20 || n == 0x85 || n == 0xa0 || n == 0x1680 || 0x2000 <= n <= 0x200a
    || n == 0x2028 || n == 0x2029 || n == 0x202f || n == 0x205f || n == 0x3000
  }

  /** Spaces before a number are skipped; a line feed among them is an error. */
  function SkipSpace(s: string): Option<string> {
    if s == "" then Some(s)
    else if s[0] == '\n' then None
    else if Blank(s[0]) then SkipSpace(s[1..])
    else Some(s)
  }

  /** One unsigned %d: a run of digits that fits. */
  function ScanDigits(s: string, max: nat): (r: Option<(nat, string)>)
    ensures r.Some? ==> r.value.0 <= max
  {
    var k := DigitRun(s);
    if k == 0 || Number(s[..k]) > max then None else Some((Number(s[..k]), s[k..]))
  }

  function ScanUnsigned(s: string, max: nat): (r: Option<(nat, string)>)
    ensures r.Some? ==> r.value.0 <= max
  {
    match SkipSpace(s)
    case None => None
    case Some(t) => ScanDigits(t, max)
  }

  /** The signed %d of the version, whose value nobody looks at. */
  predicate ScansVersion(s: string) {
    StartsWith(s, "v=") &&
    match SkipSpace(s[2..])
    case None => false
    case Some(t) =>
      if t != "" && t[0] == '-' then ScanDigits(t[1..], MAX63 + 1).Some?
      else ScanDigits(if t != "" && t[0] == '+' then t[1..] else t, MAX63).Some?
  }

  function ScanField(s: string, name: string, max: nat): (r: Option<(nat, string)>)
    ensures r.Some? ==> r.value.0 <= max
  {
    if StartsWith(s, name) then ScanUnsigned(s[|name|..], max) else None
  }

  /** Anything after the third number is ignored. */
  function ScanHeader(s: string): Option<(U32, U32, U8)> {
    match ScanField(s, "m=", MAX32)
    case None => None
    case Some((memory, s1)) =>
      match ScanField(s1, ",t=", MAX32)
      case None => None
      case Some((iterations, s2)) =>
        match ScanField(s2, ",p=", MAX8)
        case None => None
        case Some((parallelism, _)) =>
          Some((memory, iterations, parallelism))
  }

  datatype Decoded = Decoded(memory: U32, iterations: U32, parallelism: U8, keyLength: U32, salt: seq<Byte>, key: seq<Byte>)

  function DecodeHash(encoded: string): Option<Decoded> {
    var parts := Split(encoded, '$');
    if |parts| != 6 || parts[1] != "argon2id" || !ScansVersion(parts[2]) then None
    else match (ScanHeader(parts[3]), Decode(parts[4]), Decode(parts[5]))
         case (Some((m, t, p)), Some(salt), Some(key)) => Some(Decoded(m, t, p, |key| % (MAX32 + 1), salt, key))
         case _ => None
  }

  lemma ScanFieldOf(name: string, n: nat, rest: string, max: nat)
    requires n <= max && (rest == "" || !IsDigit(rest[0]))
    ensures ScanField(name + Itoa(n) + rest, name, max) == Some((n, rest))
  {
    var digits := Itoa(n);
    Cat3(name, digits, rest);
    Drops(name, digits + rest);
    DigitRunOf(digits, rest);
    NumberItoa(n);
    assert digits + rest != "" && IsDigit((digits + rest)[0]);
  }

  lemma ScanHeaderOf(m: U32, t: U32, p: U8)
    ensures ScanHeader(Header(m, t, p)) == Some((m, t, p))
  {
    var tail := ",p=" + Itoa(p);
    var mid := ",t=" + Itoa(t) + tail;
    hide ScanField, Itoa;
    ScanFieldOf("m=", m, mid, MAX32);
    ScanFieldOf(",t=", t, tail, MAX32);
    ScanFieldOf(",p=", p, "", MAX8);
    assert ",p=" + Itoa(p) + "" == tail;
  }

  lemma LacksCat(a: string, b: string, c: char)
    requires Lacks(a, c) && Lacks(b, c)
    ensures Lacks(a + b, c)
  {}

  lemma HeaderLacks(m: nat, t: nat, p: nat)
    ensures Lacks(Header(m, t, p), '$')
  {
    var tail := ",p=" + Itoa(p);
    var mid := ",t=" + Itoa(t);
    LacksCat(",p=", Itoa(p), '$');
    LacksCat(",t=", Itoa(t), '$');
    LacksCat("m=", Itoa(m), '$');
    hide Lacks;
    LacksCat(mid, tail, '$');
    LacksCat("m=" + Itoa(m), mid + tail, '$');
  }

  lemma EncodedLacks(b: seq<Byte>)
    ensures Lacks(Encode(b), '$')
  {
    assert Value('$') == None;
  }

  lemma SplitSix(a: string, b: string, c: string, d: string, e: string, f: string, s: char)
    requires Lacks(a, s) && Lacks(b, s) && Lacks(c, s) && Lacks(d, s) && Lacks(e, s) && Lacks(f, s)
    ensures Split(a + [s] + (b + [s] + (c + [s] + (d + [s] + (e + [s] + f)))), s) == [a, b, c, d, e, f]
  {
    hide Split, Lacks;
    SplitLast(f, s);
    SplitStep(e, f, s);
    SplitStep(d, e + [s] + f, s);
    SplitStep(c, d + [s] + (e + [s] + f), s);
    SplitStep(b, c + [s] + (d + [s] + (e + [s] + f)), s);
    SplitStep(a, b + [s] + (c + [s] + (d + [s] + (e + [s] + f))), s);
  }

  lemma Prefix()
    ensures "" + "$" + ("argon2id" + "$" + ("v=19" + "$")) == "$argon2id$v=19$"
  {}

  lemma Regroup(a: string, b: string, c: string, s: string, h: string, x: string, k: string)
    ensures a + s + (b + s + (c + s)) + h + s + x + s + k == a + s + (b + s + (c + s + (h + s + (x + s + k))))
  {}

  lemma SplitHash(header: string, salt: string, key: string)
    requires Lacks(header, '$') && Lacks(salt, '$') && Lacks(key, '$')
    ensures Split("$argon2id$v=19$" + header + "$" + salt + "$" + key, '$') == ["", "argon2id", "v=19", header, salt, key]
  {
    SplitSix("", "argon2id", "v=19", header, salt, key, '$');
    hide Split, Lacks;
    Prefix();
    Regroup("", "argon2id", "v=19", "$", header, salt, key);
  }

  lemma VersionScans()
    ensures ScansVersion("v=19")
  {
    assert "v=19"[2..] == Itoa(19) + "" by { assert Itoa(19) == Itoa(1) + [Digit(9)]; }
    DigitRunOf(Itoa(19), "");
    NumberItoa(19);
  }

  /** Everything printed into a hash is recovered from it. */
  lemma DecodeOfHash(m: U32, t: U32, p: U8, salt: seq<Byte>, key: seq<Byte>)
    requires |key| <= MAX32
    ensures DecodeHash(HashText(m, t, p, salt, key)) == Some(Decoded(m, t, p, |key|, salt, key))
  {
    hide Split, Header, Encode, Decode, ScanHeader, Lacks, ScansVersion;
    ScanHeaderOf(m, t, p);
    HeaderLacks(m, t, p);
    EncodedLacks(salt);
    EncodedLacks(key);
    SplitHash(Header(m, t, p), Encode(salt), Encode(key));
    VersionScans();
    RoundTrip(salt);
    RoundTrip(key);
  }

  // -------------------------------------------------------------- verification

  datatype Verdict = Answer(ok: bool) | Panics

  function Derive(kdf: Kdf, password: string, d: Decoded): Option<seq<Byte>> {
    kdf(password, d.salt, d.iterations, d.memory, d.parallelism, d.keyLength)
  }

  function Compare(kdf: Kdf, password: string, d: Decoded): Verdict {
    match Derive(kdf, password, d)
    case None => Panics
    case Some(other) => Answer(d.key == other)
  }

  function OrDummy(encoded: string, dummy: string): string { if encoded == "" then dummy else encoded }

  /** Verify given that many nested calls: None when they do not suffice. */
  function VerifyWithin(depth: nat, kdf: Kdf, dummy: string, password: string, encoded: string): Option<Verdict> {
    if depth == 0 then None
    else match DecodeHash(OrDummy(encoded, dummy))
         case Some(d) => Some(Compare(kdf, password, d))
         case None =>
           match VerifyWithin(depth - 1, kdf, dummy, password, dummy)
           case None => None
           case Some(Panics) => Some(Panics)
           case Some(Answer(_)) => Some(Answer(false))
  }

  ghost predicate Returns(kdf: Kdf, dummy: string, password: string, encoded: string) {
    exists depth: nat :: VerifyWithin(depth, kdf, dummy, password, encoded).Some?
  }

  lemma {:induction false} NeverReturns(depth: nat, kdf: Kdf, dummy: string, password: string, encoded: string)
    requires DecodeHash(OrDummy(encoded, dummy)) == None && DecodeHash(dummy) == None
    ensures VerifyWithin(depth, kdf, dummy, password, encoded) == None
  {
    if depth > 0 {
      NeverReturns(depth - 1, kdf, dummy, password, dummy);
    }
  }

  /** Verification ends on every input if and only if the dummy hash decodes. */
  lemma TotalExactly(kdf: Kdf, dummy: string, password: string)
    ensures (forall encoded :: Returns(kdf, dummy, password, encoded)) <==> DecodeHash(dummy).Some?
  {
    if DecodeHash(dummy).Some? {
      forall encoded ensures Returns(kdf, dummy, password, encoded) {
        assert VerifyWithin(1, kdf, dummy, password, dummy).Some?;
        assert VerifyWithin(2, kdf, dummy, password, encoded).Some?;
      }
    } else {
      forall depth: nat ensures VerifyWithin(depth, kdf, dummy, password, dummy) == None {
        NeverReturns(depth, kdf, dummy, password, dummy);
      }
      assert !Returns(kdf, dummy, password, dummy);
    }
  }

  // ------------------------------------------------------------------- hashing

  /** The parameters and the dummy, fixed once constructed. */
  class Hasher {
    const params: Params
    const dummyHash: string

    constructor (params: Params, dummyHash: string)
      ensures this.params == params && this.dummyHash == dummyHash
    {
      this.params, this.dummyHash := params, dummyHash;
    }

    method Verify(kdf: Kdf, password: string, encoded: string) returns (r: Verdict)
      requires DecodeHash(dummyHash).Some?
      ensures VerifyWithin(2, kdf, dummyHash, password, encoded) == Some(r)
      decreases if DecodeHash(OrDummy(encoded, dummyHash)).Some? then 0 else 1
    {
      var text := if encoded == "" then dummyHash else encoded;
      match DecodeHash(text) {
        case None =>
          r := Verify(kdf, password, dummyHash);
          if r.Answer? {
            r := Answer(false);
          }
        case Some(d) =>
          r := Compare(kdf, password, d);
      }
    }
  }

  datatype Hashed = Text(encoded: string) | Failed | Panicked

  /** salt: what the random source delivered, None when it failed. */
  function Hash(kdf: Kdf, params: Params, password: string, salt: Option<seq<Byte>>): Hashed {
    match salt
    case None => Failed
    case Some(bytes) =>
      match kdf(password, bytes, params.iterations, params.memory, params.parallelism, params.keyLength)
      case None => Panicked
      case Some(key) => Text(HashText(params.memory, params.iterations, params.parallelism, bytes, key))
  }

  function Effective(params: Params): Params { if params.saltLength == 0 then DEFAULTS else params }

  method NewHasher(kdf: Kdf, params: Params, salt: Option<seq<Byte>>) returns (h: Hasher?, dummy: Hashed)
    requires KeepsLength(kdf)
    ensures dummy == Hash(kdf, Effective(params), DUMMY, salt)
    ensures dummy.Text? <==> h != null
    ensures h != null ==> h.params == Effective(params) && h.dummyHash == dummy.encoded && DecodeHash(h.dummyHash).Some?
  {
    var p := params;
    if p.saltLength == 0 {
      p := DEFAULTS;
    }
    dummy := Hash(kdf, p, DUMMY, salt);
    h := null;
    if dummy.Text? {
      HashDecodes(kdf, p, DUMMY, salt);
      h := new Hasher(p, dummy.encoded);
    }
  }

  lemma HashDecodes(kdf: Kdf, params: Params, password: string, salt: Option<seq<Byte>>)
    requires KeepsLength(kdf) && Hash(kdf, params, password, salt).Text?
    ensures var key := kdf(password, salt.value, params.iterations, params.memory, params.parallelism, params.keyLength);
            var expected := Decoded(params.memory, params.iterations, params.parallelism, params.keyLength, salt.value, key.value);
            DecodeHash(Hash(kdf, params, password, salt).encoded) == Some(expected)
  {
    var key := kdf(password, salt.value, params.iterations, params.memory, params.parallelism, params.keyLength).value;
    DecodeOfHash(params.memory, params.iterations, params.parallelism, salt.value, key);
  }

  /**
    A hash is accepted for exactly the passwords that derive its key, whatever
    the parameters it was made with; its own password among them.
   */
  lemma VerifiesExactly(kdf: Kdf, params: Params, made: string, tried: string, salt: Option<seq<Byte>>, dummy: string)
    requires KeepsLength(kdf) && Hash(kdf, params, made, salt).Text?
    ensures var key := kdf(made, salt.value, params.iterations, params.memory, params.parallelism, params.keyLength);
            var other := kdf(tried, salt.value, params.iterations, params.memory, params.parallelism, params.keyLength);
            var r := VerifyWithin(2, kdf, dummy, tried, Hash(kdf, params, made, salt).encoded);
            && (r == Some(Answer(true)) <==> other == key)
            && (r == Some(Panics) <==> other == None)
  {
    HashDecodes(kdf, params, made, salt);
    hide DecodeHash;
    NotEmpty(kdf, params, made, salt);
  }

  lemma NotEmpty(kdf: Kdf, params: Params, made: string, salt: Option<seq<Byte>>)
    requires Hash(kdf, params, made, salt).Text?
    ensures Hash(kdf, params, made, salt).encoded != ""
  {
    assert |Hash(kdf, params, made, salt).encoded| >= 15;
  }

  /** A malformed stored hash never verifies, though the dummy is still derived. */
  lemma MalformedNeverVerifies(kdf: Kdf, dummy: string, password: string, encoded: string)
    requires encoded != "" && DecodeHash(encoded) == None && DecodeHash(dummy).Some?
    ensures VerifyWithin(2, kdf, dummy, password, encoded)
         == Some(if Derive(kdf, password, DecodeHash(dummy).value) == None then Panics else Answer(false))
  {
    assert DecodeHash(OrDummy(dummy, dummy)).Some?;
    assert VerifyWithin(1, kdf, dummy, password, dummy) == Some(Compare(kdf, password, DecodeHash(dummy).value));
  }

  /** The fields of a printed hash, as they stand. */
  lemma HashFields(m: U32, t: U32, p: U8, salt: seq<Byte>, key: seq<Byte>)
    ensures Split(HashText(m, t, p, salt, key), '$')
         == ["", "argon2id", "v=19", "m=" + Itoa(m) + (",t=" + Itoa(t) + (",p=" + Itoa(p))), Encode(salt), Encode(key)]
  {
    HeaderLacks(m, t, p);
    EncodedLacks(salt);
    EncodedLacks(key);
    hide Split, Encode, Lacks, Itoa;
    SplitHash(Header(m, t, p), Encode(salt), Encode(key));
  }

  /** Parameters without a salt length are replaced by the production ones: 64 MiB, three passes, four lanes, 16 and 32 bytes. */
  lemma ProductionParameters(params: Params)
    ensures params.saltLength != 0 ==> Effective(params) == params
    ensures params.saltLength == 0 ==> Effective(params) == Params(65536, 3, 4, 16, 32)
  {}

  /** An empty stored hash, as for an unknown user, is verified against the dummy. */
  lemma EmptyMeansDummy(kdf: Kdf, dummy: string, password: string)
    requires DecodeHash(dummy).Some?
    ensures VerifyWithin(2, kdf, dummy, password, "") == Some(Compare(kdf, password, DecodeHash(dummy).value))
  {}

  /** Only text in six fields, the second of them argon2id, is taken for a hash. */
  lemma DecodesOnly(encoded: string)
    ensures DecodeHash(encoded).Some? ==>
              var parts := Split(encoded, '$');
              && |parts| == 6 && parts[1] == "argon2id" && StartsWith(parts[2], "v=") && StartsWith(parts[3], "m=")
              && Decode(parts[4]) == Some(DecodeHash(encoded).value.salt) && Decode(parts[5]) == Some(DecodeHash(encoded).value.key)
  {}
}
