/**
 The PHC strings of auth/password.go: argon2id parameters, salt and key printed
 on one line and read back. The base64 is the standard alphabet of section 4 of
 RFC 4648 without padding (section 3.2), decoded strictly (section 3.5).
 */
module PhcStrings {
  import opened Common
  import opened Text

  newtype byte = x: int | 0 <= x < 256
  const ARGON2_VERSION := 19
  const UINT32: int := 0x1_0000_0000

  // ---- Unpadded base64 ----

  /** The standard alphabet: A-Z, a-z, 0-9, plus and slash. */
  function Letter(v: nat): char
    requires v < 64
  {
    if v < 26 then 'A' + v as char
    else if v < 52 then 'a' + (v - 26) as char
    else if v < 62 then '0' + (v - 52) as char
    else if v == 62 then '+'
    else '/'
  }

  /** The six bits a letter stands for. */
  function Sextet(c: char): Option<nat> {
    if 'A' <= c <= 'Z' then Some((c - 'A') as nat)
    else if 'a' <= c <= 'z' then Some(26 + (c - 'a') as nat)
    else if '0' <= c <= '9' then Some(52 + (c - '0') as nat)
    else if c == '+' then Some(62)
    else if c == '/' then Some(63)
    else None
  }

  lemma SextetOfLetter(v: nat)
    requires v < 64
    ensures Sextet(Letter(v)) == Some(v)
  {}

  lemma LetterOfSextet(c: char)
    requires Sextet(c).Some?
    ensures Sextet(c).value < 64 && Letter(Sextet(c).value) == c
  {}

  /** Three bytes as four letters; the four are the bytes' bits in order, six at a time. */
  function Group(b0: byte, b1: byte, b2: byte): (g: string)
    ensures |g| == 4
  {
    var (x, y, z) := (b0 as int, b1 as int, b2 as int);
    [Letter(x / 4), Letter(x % 4 * 16 + y / 16), Letter(y % 16 * 4 + z / 64), Letter(z % 64)]
  }

  /** A tail of one or two bytes prints as the letters its bits reach, the missing bits zero. */
  function Encode64(b: seq<byte>): string {
    if b == [] then ""
    else if |b| == 1 then Group(b[0], 0, 0)[..2]
    else if |b| == 2 then Group(b[0], b[1], 0)[..3]
    else Group(b[0], b[1], b[2]) + Encode64(b[3..])
  }

  function Ungroup(v0: nat, v1: nat, v2: nat, v3: nat): (byte, byte, byte)
    requires v0 < 64 && v1 < 64 && v2 < 64 && v3 < 64
  {
    ((v0 * 4 + v1 / 16) as byte, (v1 % 16 * 16 + v2 / 4) as byte, (v2 % 4 * 64 + v3) as byte)
  }

  /** The sextet, or none for a character outside the alphabet; zero past the end. */
  function SextetAt(s: string, i: nat): (v: Option<nat>)
    ensures v.Some? ==> v.value < 64
  {
    if i < |s| then Sextet(s[i]) else Some(0)
  }

  /** Whole groups of four letters, then a tail of two or three whose unused bits must be zero. */
  function Decode64Strict(s: string): Option<seq<byte>> {
    if s == "" then Some([])
    else
      var q0, q1, q2, q3 := SextetAt(s, 0), SextetAt(s, 1), SextetAt(s, 2), SextetAt(s, 3);
      if |s| == 1 || q0.None? || q1.None? || q2.None? || q3.None? then None
      else
        var (b0, b1, b2) := Ungroup(q0.value, q1.value, q2.value, q3.value);
        if |s| == 2 then (if b1 == 0 then Some([b0]) else None)
        else if |s| == 3 then (if b2 == 0 then Some([b0, b1]) else None)
        else
          var rest := Decode64Strict(s[4..]);
          if rest.None? then None else Some([b0, b1, b2] + rest.value)
  }

  /** Twenty-four bits cut in sixes and put back in eights. */
  lemma BitsComeBack(x: int, y: int, z: int)
    requires 0 <= x < 256 && 0 <= y < 256 && 0 <= z < 256
    ensures var a, b, c, d := x / 4, x % 4 * 16 + y / 16, y % 16 * 4 + z / 64, z % 64;
            && 0 <= a < 64 && 0 <= b < 64 && 0 <= c < 64 && 0 <= d < 64
            && a * 4 + b / 16 == x && b % 16 * 16 + c / 4 == y && c % 4 * 64 + d == z
  {
    assert (x % 4 * 16 + y / 16) / 16 == x % 4 && (x % 4 * 16 + y / 16) % 16 == y / 16;
    assert (y % 16 * 4 + z / 64) / 4 == y % 16 && (y % 16 * 4 + z / 64) % 4 == z / 64;
  }

  lemma SextetsOfGroup(b0: byte, b1: byte, b2: byte)
    ensures var g, x, y, z := Group(b0, b1, b2), b0 as int, b1 as int, b2 as int;
            && Sextet(g[0]) == Some(x / 4) && Sextet(g[1]) == Some(x % 4 * 16 + y / 16)
            && Sextet(g[2]) == Some(y % 16 * 4 + z / 64) && Sextet(g[3]) == Some(z % 64)
  {
    var x, y, z := b0 as int, b1 as int, b2 as int;
    SextetOfLetter(x / 4);
    SextetOfLetter(x % 4 * 16 + y / 16);
    SextetOfLetter(y % 16 * 4 + z / 64);
    SextetOfLetter(z % 64);
  }

  lemma UngroupGroup(b0: byte, b1: byte, b2: byte)
    ensures var g := Group(b0, b1, b2);
            && Sextet(g[0]).Some? && Sextet(g[1]).Some? && Sextet(g[2]).Some? && Sextet(g[3]).Some?
            && Ungroup(Sextet(g[0]).value, Sextet(g[1]).value, Sextet(g[2]).value, Sextet(g[3]).value) == (b0, b1, b2)
            && (b2 == 0 ==> Sextet(g[3]) == Some(0)) && (b1 == 0 && b2 == 0 ==> Sextet(g[2]) == Some(0))
  {
    SextetsOfGroup(b0, b1, b2);
    BitsComeBack(b0 as int, b1 as int, b2 as int);
  }

  lemma GroupUngroup(v0: nat, v1: nat, v2: nat, v3: nat)
    requires v0 < 64 && v1 < 64 && v2 < 64 && v3 < 64
    ensures var (b0, b1, b2) := Ungroup(v0, v1, v2, v3);
            Group(b0, b1, b2) == [Letter(v0), Letter(v1), Letter(v2), Letter(v3)]
  {
    var (b0, b1, b2) := Ungroup(v0, v1, v2, v3);
    assert b0 as int / 4 == v0 && b0 as int % 4 * 16 + b1 as int / 16 == v1;
    assert b1 as int % 16 * 4 + b2 as int / 64 == v2 && b2 as int % 64 == v3;
  }

  /** The decoder passes over carriage returns and line feeds wherever they stand. */
  function StripBreaks(s: string): string {
    if s == "" then ""
    else (if s[0] == '\r' || s[0] == '\n' then "" else [s[0]]) + StripBreaks(s[1..])
  }

  function Decode64(s: string): Option<seq<byte>> {
    Decode64Strict(StripBreaks(s))
  }

  ghost predicate IsBase64(s: string) {
    forall i :: 0 <= i < |s| ==> Sextet(s[i]).Some?
  }

  lemma {:induction false} EncodeIsBase64(b: seq<byte>)
    ensures IsBase64(Encode64(b))
  {
    if b != [] {
      UngroupGroup(b[0], if |b| > 1 then b[1] else 0, if |b| > 2 then b[2] else 0);
      if |b| >= 3 {
        EncodeIsBase64(b[3..]);
      }
    }
  }

  lemma {:induction false} StripKeepsBase64(s: string)
    requires IsBase64(s)
    ensures StripBreaks(s) == s
  {
    if s != "" {
      StripKeepsBase64(s[1..]);
    }
  }

  lemma GroupDecodes(b0: byte, b1: byte, b2: byte, rest: string)
    requires Decode64Strict(rest).Some?
    ensures Decode64Strict(Group(b0, b1, b2) + rest) == Some([b0, b1, b2] + Decode64Strict(rest).value)
  {
    UngroupGroup(b0, b1, b2);
    var s := Group(b0, b1, b2) + rest;
    assert s[4..] == rest;
  }

  lemma TailDecodes(b0: byte, b1: byte)
    ensures Decode64Strict(Group(b0, 0, 0)[..2]) == Some([b0])
    ensures Decode64Strict(Group(b0, b1, 0)[..3]) == Some([b0, b1])
  {
    UngroupGroup(b0, 0, 0);
    UngroupGroup(b0, b1, 0);
  }

  lemma ShortDecodes(b: seq<byte>)
    requires |b| < 3
    ensures Decode64Strict(Encode64(b)) == Some(b)
  {
    if |b| == 1 {
      assert b == [b[0]] && Encode64(b) == Group(b[0], 0, 0)[..2];
      TailDecodes(b[0], 0);
    } else if |b| == 2 {
      assert b == [b[0], b[1]] && Encode64(b) == Group(b[0], b[1], 0)[..3];
      TailDecodes(b[0], b[1]);
    }
  }

  lemma {:induction false} DecodeUndoesEncode(b: seq<byte>)
    ensures Decode64Strict(Encode64(b)) == Some(b)
  {
    if |b| < 3 {
      ShortDecodes(b);
    } else {
      DecodeUndoesEncode(b[3..]);
      assert Encode64(b) == Group(b[0], b[1], b[2]) + Encode64(b[3..]);
      GroupDecodes(b[0], b[1], b[2], Encode64(b[3..]));
      assert b == [b[0], b[1], b[2]] + b[3..];
    }
  }

  lemma LetterAt(s: string, i: nat)
    requires i < |s| && SextetAt(s, i).Some?
    ensures Letter(SextetAt(s, i).value) == s[i]
  {
    LetterOfSextet(s[i]);
  }

  lemma ZeroTail(v0: nat, v1: nat, v2: nat)
    requires v0 < 64 && v1 < 64 && v2 < 64
    ensures var (b0, b1, b2) := Ungroup(v0, v1, v2, 0); b2 == 0 <==> v2 % 4 == 0
    ensures var (b0, b1, b2) := Ungroup(v0, v1, 0, 0); b2 == 0 && (b1 == 0 <==> v1 % 16 == 0)
  {}

  /** Strictness: what decodes is exactly what encoding would have printed, so no two strings give one value. */
  lemma {:induction false} EncodeUndoesDecode(s: string)
    requires Decode64Strict(s).Some?
    ensures Encode64(Decode64Strict(s).value) == s
  {
    if s != "" {
      var q0, q1, q2, q3 := SextetAt(s, 0), SextetAt(s, 1), SextetAt(s, 2), SextetAt(s, 3);
      GroupUngroup(q0.value, q1.value, q2.value, q3.value);
      ZeroTail(q0.value, q1.value, q2.value);
      LetterAt(s, 0);
      LetterAt(s, 1);
      if |s| >= 3 {
        LetterAt(s, 2);
      }
      if |s| >= 4 {
        LetterAt(s, 3);
        EncodeUndoesDecode(s[4..]);
        GroupsDecode(s);
      }
    }
  }

  lemma GroupsDecode(s: string)
    requires |s| >= 4 && Decode64Strict(s).Some? && Encode64(Decode64Strict(s[4..]).value) == s[4..]
    requires var (b0, b1, b2) := Ungroup(SextetAt(s, 0).value, SextetAt(s, 1).value, SextetAt(s, 2).value, SextetAt(s, 3).value);
             Group(b0, b1, b2) == [s[0], s[1], s[2], s[3]]
    ensures Encode64(Decode64Strict(s).value) == s
  {
    var b := Decode64Strict(s).value;
    assert b[3..] == Decode64Strict(s[4..]).value;
    assert s == [s[0], s[1], s[2], s[3]] + s[4..];
  }

  /** A text decodes if and only if, line breaks aside, it is the encoding of some bytes — and then of those. */
  lemma DecodesIffEncoded(s: string, b: seq<byte>)
    ensures Decode64(s) == Some(b) <==> StripBreaks(s) == Encode64(b)
  {
    if Decode64(s) == Some(b) {
      EncodeUndoesDecode(StripBreaks(s));
    }
    DecodeUndoesEncode(b);
  }

  // ---- The printed line ----

  /** Memory and Time are uint32, Parallelism is uint8. */
  datatype Params = Params(memory: int, time: int, parallelism: int, saltLength: int, keyLength: int)

  predicate InRange(p: Params) {
    0 <= p.memory < UINT32 && 0 <= p.time < UINT32 && 0 <= p.parallelism < 256
  }

  function ParamText(p: Params): string
    requires InRange(p)
  {
    "m=" + Decimal(p.memory) + ",t=" + Decimal(p.time) + ",p=" + Decimal(p.parallelism)
  }

  function Encode(p: Params, salt: seq<byte>, key: seq<byte>): string
    requires InRange(p)
  {
    "$argon2id$v=" + Decimal(ARGON2_VERSION) + "$" + ParamText(p) + "$" + Encode64(salt) + "$" + Encode64(key)
  }

  // ---- Reading it back ----

  /** How many leading digits. */
  function DigitRun(s: string): (n: nat)
    ensures n <= |s| && (forall i :: 0 <= i < n ==> IsDigit(s[i])) && (n < |s| ==> !IsDigit(s[n]))
  {
    if s == "" || !IsDigit(s[0]) then 0 else 1 + DigitRun(s[1..])
  }

  /** Every space but the line feed, which Sscanf takes from the input only where the format has one. */
  function SkipBlanks(s: string): string {
    if s != "" && IsSpace(s[0]) && s[0] != '\n' then SkipBlanks(s[1..]) else s
  }

  datatype Scan = Scan(value: int, rest: string)

  /** One %d of Sscanf into an unsigned field: blanks, then digits that fit below the bound. */
  function ScanUnsigned(s: string, bound: int): Option<Scan> {
    var s' := SkipBlanks(s);
    var n := DigitRun(s');
    if n == 0 || DecimalValue(s'[..n]) >= bound then None else Some(Scan(DecimalValue(s'[..n]), s'[n..]))
  }

  /** One %d of Sscanf into an int, which also takes a sign. */
  function ScanInt(s: string): Option<Scan> {
    var s' := SkipBlanks(s);
    var negative := s' != "" && s'[0] == '-';
    var s'' := if s' != "" && s'[0] in {'+', '-'} then s'[1..] else s';
    var n := DigitRun(s'');
    if n == 0 then None
    else
      var magnitude: int := DecimalValue(s''[..n]);
      var v := if negative then -magnitude else magnitude;
      if -0x8000_0000_0000_0000 <= v < 0x8000_0000_0000_0000 then Some(Scan(v, s''[n..])) else None
  }

  /** A literal of the format must match as it stands. */
  function Expect(s: string, literal: string): Option<string> {
    if HasPrefix(s, literal) then Some(s[|literal|..]) else None
  }

  datatype Error = UnrecognisedFormat | UnreadableVersion | WrongVersion | UnreadableParameters | UnreadableSalt | UnreadableHash
  datatype Decoded = Decoded(p: Params, salt: seq<byte>, key: seq<byte>)

  /** Sscanf(part, "m=%d,t=%d,p=%d"): what follows the last number is not looked at. */
  function ScanParams(s: string): Option<Params> {
    match Expect(s, "m=")
    case None => None
    case Some(s1) =>
      match ScanUnsigned(s1, UINT32)
      case None => None
      case Some(m) =>
        match Expect(m.rest, ",t=")
        case None => None
        case Some(s2) =>
          match ScanUnsigned(s2, UINT32)
          case None => None
          case Some(t) =>
            match Expect(t.rest, ",p=")
            case None => None
            case Some(s3) =>
              match ScanUnsigned(s3, 256)
              case None => None
              case Some(p) => Some(Params(m.value, t.value, p.value, 0, 0))
  }

  function ScanVersion(s: string): Option<int> {
    match Expect(s, "v=")
    case None => None
    case Some(rest) => match ScanInt(rest) case None => None case Some(v) => Some(v.value)
  }

  /** What stands before the first dollar is not looked at. */
  function DecodeParts(parts: seq<string>): Result<Decoded, Error> {
    if |parts| != 6 || parts[1] != "argon2id" then Err(UnrecognisedFormat)
    else if ScanVersion(parts[2]).None? then Err(UnreadableVersion)
    else if ScanVersion(parts[2]).value != ARGON2_VERSION then Err(WrongVersion)
    else if ScanParams(parts[3]).None? then Err(UnreadableParameters)
    else if Decode64(parts[4]).None? then Err(UnreadableSalt)
    else if Decode64(parts[5]).None? then Err(UnreadableHash)
    else
      var salt, key := Decode64(parts[4]).value, Decode64(parts[5]).value;
      Ok(Decoded(ScanParams(parts[3]).value.(saltLength := |salt| % UINT32, keyLength := |key| % UINT32), salt, key))
  }

  function Decode(encoded: string): Result<Decoded, Error> {
    DecodeParts(Split(encoded, '$'))
  }

  // ---- The round trip ----

  lemma DigitsRunOut(d: string, rest: string)
    requires (forall i :: 0 <= i < |d| ==> IsDigit(d[i])) && (rest != "" ==> !IsDigit(rest[0]))
    ensures DigitRun(d + rest) == |d| && (d + rest)[..|d|] == d && (d + rest)[|d|..] == rest
  {
    assert forall k :: 0 <= k < |d| ==> (d + rest)[k] == d[k];
    assert rest != "" ==> (d + rest)[|d|] == rest[0];
  }

  lemma ScanPrinted(n: nat, rest: string, bound: int)
    requires n < bound && (rest != "" ==> !IsDigit(rest[0]))
    ensures ScanUnsigned(Decimal(n) + rest, bound) == Some(Scan(n, rest))
  {
    var s := Decimal(n) + rest;
    assert IsDigit(Decimal(n)[0]) && s[0] == Decimal(n)[0];
    assert SkipBlanks(s) == s;
    DigitsRunOut(Decimal(n), rest);
    DecimalRoundTrip(n);
  }

  lemma ExpectPrinted(literal: string, rest: string)
    ensures Expect(literal + rest, literal) == Some(rest)
  {
    assert (literal + rest)[..|literal|] == literal && (literal + rest)[|literal|..] == rest;
  }

  lemma ParamsRoundTrip(p: Params)
    requires InRange(p)
    ensures ScanParams(ParamText(p)) == Some(Params(p.memory, p.time, p.parallelism, 0, 0))
  {
    var tail3 := Decimal(p.parallelism);
    var tail2 := Decimal(p.time) + (",p=" + tail3);
    var tail1 := Decimal(p.memory) + (",t=" + tail2);
    assert ParamText(p) == "m=" + tail1;
    ExpectPrinted("m=", tail1);
    ScanPrinted(p.memory, ",t=" + tail2, UINT32);
    ExpectPrinted(",t=", tail2);
    ScanPrinted(p.time, ",p=" + tail3, UINT32);
    ExpectPrinted(",p=", tail3);
    ScanPrinted(p.parallelism, "", 256);
    assert tail3 + "" == tail3;
  }

  lemma VersionRoundTrip()
    ensures ScanVersion("v=" + Decimal(ARGON2_VERSION)) == Some(ARGON2_VERSION)
  {
    var d := Decimal(ARGON2_VERSION);
    ExpectPrinted("v=", d);
    assert IsDigit(d[0]) && SkipBlanks(d) == d;
    DigitsRunOut(d, "");
    assert d + "" == d;
    DecimalRoundTrip(ARGON2_VERSION);
  }

  lemma ParamTextIsFree(p: Params)
    requires InRange(p)
    ensures Free(ParamText(p), '$')
  {
    assert Free(Decimal(p.memory), '$') && Free(Decimal(p.time), '$') && Free(Decimal(p.parallelism), '$');
  }

  lemma Base64IsFree(b: seq<byte>)
    ensures Free(Encode64(b), '$')
  {
    EncodeIsBase64(b);
  }

  lemma SplitOfEncode(p: Params, salt: seq<byte>, key: seq<byte>)
    requires InRange(p)
    ensures Split(Encode(p, salt, key), '$')
         == ["", "argon2id"] + ["v=" + Decimal(ARGON2_VERSION), ParamText(p), Encode64(salt), Encode64(key)]
  {
    var v, m, sa, k := "v=" + Decimal(ARGON2_VERSION), ParamText(p), Encode64(salt), Encode64(key);
    assert Free(Decimal(ARGON2_VERSION), '$');
    ParamTextIsFree(p);
    Base64IsFree(salt);
    Base64IsFree(key);
    SplitFour(v, m, sa, k);
    SplitPrefix(v + ['$'] + (m + ['$'] + (sa + ['$'] + k)));
    EncodeShape(p, salt, key);
  }

  lemma EncodeShape(p: Params, salt: seq<byte>, key: seq<byte>)
    requires InRange(p)
    ensures var v, m, sa, k := "v=" + Decimal(ARGON2_VERSION), ParamText(p), Encode64(salt), Encode64(key);
            Encode(p, salt, key) == "$argon2id$" + (v + ['$'] + (m + ['$'] + (sa + ['$'] + k)))
  {
    var d, m, sa, k := Decimal(ARGON2_VERSION), ParamText(p), Encode64(salt), Encode64(key);
    assert "$argon2id$v=" == "$argon2id$" + "v=";
    assert Encode(p, salt, key) == "$argon2id$v=" + d + "$" + m + "$" + sa + "$" + k;
    ShapeOf(d, m, sa, k);
  }

  lemma ShapeOf(d: string, m: string, sa: string, k: string)
    ensures "$argon2id$" + "v=" + d + "$" + m + "$" + sa + "$" + k
         == "$argon2id$" + (("v=" + d) + ['$'] + (m + ['$'] + (sa + ['$'] + k)))
  {}

  lemma SplitPrefix(rest: string)
    ensures Split("$argon2id$" + rest, '$') == ["", "argon2id"] + Split(rest, '$')
  {
    SplitSecond("$argon2id$" + rest, "argon2id" + ['$'] + rest, "argon2id", rest);
  }

  lemma SplitSecond(s: string, more: string, a: string, rest: string)
    requires Free(a, '$') && more == a + ['$'] + rest && s == "" + ['$'] + more
    ensures Split(s, '$') == ["", a] + Split(rest, '$')
  {
    SplitHead(a, rest, '$');
    SplitHead("", more, '$');
    Prepended("", a, Split(rest, '$'));
  }

  lemma Prepended(x: string, y: string, s: seq<string>)
    ensures [x] + ([y] + s) == [x, y] + s
  {}

  lemma SplitFour(a: string, b: string, c: string, d: string)
    requires Free(a, '$') && Free(b, '$') && Free(c, '$') && Free(d, '$')
    ensures Split(a + ['$'] + (b + ['$'] + (c + ['$'] + d)), '$') == [a, b, c, d]
  {
    SplitLast(d, '$');
    SplitHead(c, d, '$');
    SplitHead(b, c + ['$'] + d, '$');
    SplitHead(a, b + ['$'] + (c + ['$'] + d), '$');
  }

  lemma BytesRoundTrip(b: seq<byte>)
    ensures Decode64(Encode64(b)) == Some(b)
  {
    EncodeIsBase64(b);
    StripKeepsBase64(Encode64(b));
    DecodeUndoesEncode(b);
  }

  lemma PartsDecode(v: string, m: string, sa: string, k: string, p: Params, salt: seq<byte>, key: seq<byte>)
    requires ScanVersion(v) == Some(ARGON2_VERSION) && ScanParams(m) == Some(Params(p.memory, p.time, p.parallelism, 0, 0))
    requires Decode64(sa) == Some(salt) && Decode64(k) == Some(key)
    ensures DecodeParts(["", "argon2id"] + [v, m, sa, k])
         == Ok(Decoded(p.(saltLength := |salt| % UINT32, keyLength := |key| % UINT32), salt, key))
  {}

  /**
   A hash reads back as what was written, for all parameters and all byte
   strings, with the two length fields set to the actual lengths as uint32.
   */
  lemma RoundTrip(p: Params, salt: seq<byte>, key: seq<byte>)
    requires InRange(p)
    ensures Decode(Encode(p, salt, key))
         == Ok(Decoded(p.(saltLength := |salt| % UINT32, keyLength := |key| % UINT32), salt, key))
  {
    SplitOfEncode(p, salt, key);
    VersionRoundTrip();
    ParamsRoundTrip(p);
    BytesRoundTrip(salt);
    BytesRoundTrip(key);
    PartsDecode("v=" + Decimal(ARGON2_VERSION), ParamText(p), Encode64(salt), Encode64(key), p, salt, key);
  }

  // ---- Which texts print again as they were ----

  /** A field of the parameters as it is printed: its letter, an equals sign and a plain number. */
  predicate PlainField(s: string, letter: char) {
    |s| > 2 && s[0] == letter && s[1] == '=' && PlainNumber(s[2..])
  }

  predicate PlainParams(s: string) {
    var fields := Split(s, ',');
    |fields| == 3 && PlainField(fields[0], 'm') && PlainField(fields[1], 't') && PlainField(fields[2], 'p')
  }

  predicate NoBreaks(s: string) {
    forall i :: 0 <= i < |s| ==> s[i] != '\r' && s[i] != '\n'
  }

  /** Nothing before the first dollar, plain numbers and nothing between or after them, and no line break in the base64. */
  predicate Canonical(s: string) {
    var parts := Split(s, '$');
    && |parts| == 6 && parts[0] == "" && parts[2] == "v=19" && PlainParams(parts[3])
    && NoBreaks(parts[4]) && NoBreaks(parts[5])
  }

  lemma ScanPlain(d: string, rest: string, bound: int)
    requires PlainNumber(d) && (rest != "" ==> !IsDigit(rest[0])) && ScanUnsigned(d + rest, bound).Some?
    ensures 0 <= DecimalValue(d) < bound && ScanUnsigned(d + rest, bound) == Some(Scan(DecimalValue(d), rest))
  {
    var s := d + rest;
    assert IsDigit(d[0]) && s[0] == d[0];
    assert SkipBlanks(s) == s;
    DigitsRunOut(d, rest);
  }

  lemma ScanPlainParams(a: string, b: string, c: string)
    requires PlainNumber(a) && PlainNumber(b) && PlainNumber(c)
    requires ScanParams("m=" + (a + (",t=" + (b + (",p=" + c))))).Some?
    ensures 0 <= DecimalValue(a) < UINT32 && 0 <= DecimalValue(b) < UINT32 && 0 <= DecimalValue(c) < 256
    ensures ScanParams("m=" + (a + (",t=" + (b + (",p=" + c))))).value == Params(DecimalValue(a), DecimalValue(b), DecimalValue(c), 0, 0)
  {
    var tail2 := b + (",p=" + c);
    var tail1 := a + (",t=" + tail2);
    ExpectPrinted("m=", tail1);
    ScanPlain(a, ",t=" + tail2, UINT32);
    ExpectPrinted(",t=", tail2);
    ScanPlain(b, ",p=" + c, UINT32);
    ExpectPrinted(",p=", c);
    assert c + "" == c;
    ScanPlain(c, "", 256);
  }

  lemma ScanStaysInRange(s: string)
    requires ScanParams(s).Some?
    ensures InRange(ScanParams(s).value)
  {}

  lemma FieldParts(s: string, letter: char)
    requires PlainField(s, letter)
    ensures s == [letter, '='] + s[2..]
  {}

  lemma PlainParamsShape(s: string) returns (a: string, b: string, c: string)
    requires PlainParams(s)
    ensures PlainNumber(a) && PlainNumber(b) && PlainNumber(c)
    ensures s == "m=" + (a + (",t=" + (b + (",p=" + c))))
  {
    var fields := Split(s, ',');
    a, b, c := fields[0][2..], fields[1][2..], fields[2][2..];
    JoinUndoesSplit(s, ',');
    JoinedThree(fields, ',');
    FieldParts(fields[0], 'm');
    FieldParts(fields[1], 't');
    FieldParts(fields[2], 'p');
    Threaded(s, a, b, c);
  }

  lemma JoinedTwo(ps: seq<string>, c: char)
    requires |ps| == 2
    ensures Join(ps, c) == ps[0] + [c] + ps[1]
  {
    assert ps[1..] == [ps[1]];
  }

  lemma JoinedThree(ps: seq<string>, c: char)
    requires |ps| == 3
    ensures Join(ps, c) == ps[0] + [c] + (ps[1] + [c] + ps[2])
  {
    JoinedTwo(ps[1..], c);
  }

  lemma Threaded(s: string, a: string, b: string, c: string)
    requires s == (['m', '='] + a) + [','] + ((['t', '='] + b) + [','] + (['p', '='] + c))
    ensures s == "m=" + (a + (",t=" + (b + (",p=" + c))))
  {
    assert ['m', '='] == "m=" && [','] + ['t', '='] == ",t=" && [','] + ['p', '='] == ",p=";
  }

  /** Plain parameters print again as they were read. */
  lemma PlainParamsReprint(s: string)
    requires PlainParams(s) && ScanParams(s).Some?
    ensures InRange(ScanParams(s).value) && ParamText(ScanParams(s).value) == s
  {
    var a, b, c := PlainParamsShape(s);
    ScanPlainParams(a, b, c);
    PlainIsPrinted(a);
    PlainIsPrinted(b);
    PlainIsPrinted(c);
    ThreadedText(a, b, c);
  }

  lemma ThreadedText(a: string, b: string, c: string)
    ensures "m=" + a + ",t=" + b + ",p=" + c == "m=" + (a + (",t=" + (b + (",p=" + c))))
  {}

  lemma PrintedField(letter: char, n: nat)
    requires letter in {'m', 't', 'p'}
    ensures PlainField([letter, '='] + Decimal(n), letter) && Free([letter, '='] + Decimal(n), ',')
  {
    DecimalIsPlain(n);
    var f := [letter, '='] + Decimal(n);
    assert f[2..] == Decimal(n);
    forall i | 0 <= i < |f| ensures f[i] != ',' {
      assert i >= 2 ==> IsDigit(f[2..][i - 2]);
    }
  }

  lemma SplitThree(a: string, b: string, d: string, c: char)
    requires Free(a, c) && Free(b, c) && Free(d, c)
    ensures Split(a + [c] + (b + [c] + d), c) == [a, b, d]
  {
    SplitLast(d, c);
    SplitHead(b, d, c);
    SplitHead(a, b + [c] + d, c);
  }

  lemma ParamTextIsPlain(p: Params)
    requires InRange(p)
    ensures PlainParams(ParamText(p))
  {
    var a, b, c := Decimal(p.memory), Decimal(p.time), Decimal(p.parallelism);
    var m, t, f := ['m', '='] + a, ['t', '='] + b, ['p', '='] + c;
    PrintedField('m', p.memory);
    PrintedField('t', p.time);
    PrintedField('p', p.parallelism);
    SplitThree(m, t, f, ',');
    Threaded(m + [','] + (t + [','] + f), a, b, c);
    ThreadedText(a, b, c);
  }

  lemma {:induction false} UnbrokenIsKept(s: string)
    ensures NoBreaks(s) ==> StripBreaks(s) == s
    ensures IsBase64(s) ==> NoBreaks(s)
  {
    if s != "" && NoBreaks(s) {
      assert NoBreaks(s[1..]);
      UnbrokenIsKept(s[1..]);
    }
    forall i | 0 <= i < |s| && Sextet(s[i]).Some? ensures s[i] != '\r' && s[i] != '\n' {}
  }

  lemma UnbrokenReprints(s: string)
    requires NoBreaks(s) && Decode64(s).Some?
    ensures Encode64(Decode64(s).value) == s
  {
    UnbrokenIsKept(s);
    EncodeUndoesDecode(s);
  }

  lemma JoinedSix(ps: seq<string>, c: char)
    requires |ps| == 6
    ensures Join(ps, c) == ps[0] + [c] + (ps[1] + [c] + (ps[2] + [c] + (ps[3] + [c] + (ps[4] + [c] + ps[5]))))
  {
    var five, four := ps[1..], ps[1..][1..];
    JoinedThree(four[1..], c);
    assert four[1..][0] == ps[3] && four[1..][1] == ps[4] && four[1..][2] == ps[5];
    assert Join(four, c) == four[0] + [c] + Join(four[1..], c);
    assert Join(five, c) == five[0] + [c] + Join(four, c);
  }

  lemma VersionText()
    ensures "v=" + Decimal(ARGON2_VERSION) == "v=19"
  {
    assert Decimal(19) == Decimal(1) + [Digit(9)];
  }

  lemma DecodedParts(s: string)
    requires Decode(s).Ok?
    ensures var parts, d := Split(s, '$'), Decode(s).value;
            && |parts| == 6 && parts[1] == "argon2id"
            && ScanParams(parts[3]).Some? && Decode64(parts[4]) == Some(d.salt) && Decode64(parts[5]) == Some(d.key)
            && d.p.(saltLength := 0, keyLength := 0) == ScanParams(parts[3]).value
            && InRange(d.p) && ParamText(d.p) == ParamText(d.p.(saltLength := 0, keyLength := 0))
  {
    ScanStaysInRange(Split(s, '$')[3]);
  }

  lemma CanonicalReprints(s: string)
    requires Decode(s).Ok? && Canonical(s)
    ensures InRange(Decode(s).value.p) && Encode(Decode(s).value.p, Decode(s).value.salt, Decode(s).value.key) == s
  {
    var parts, d := Split(s, '$'), Decode(s).value;
    DecodedParts(s);
    PlainParamsReprint(parts[3]);
    UnbrokenReprints(parts[4]);
    UnbrokenReprints(parts[5]);
    VersionText();
    JoinUndoesSplit(s, '$');
    JoinedSix(parts, '$');
    EncodeShape(d.p, d.salt, d.key);
    Headed(parts[2] + ['$'] + (parts[3] + ['$'] + (parts[4] + ['$'] + parts[5])));
  }

  lemma Headed(rest: string)
    ensures "" + ['$'] + ("argon2id" + ['$'] + rest) == "$argon2id$" + rest
  {}

  lemma PrintsAreCanonical(p: Params, salt: seq<byte>, key: seq<byte>)
    requires InRange(p)
    ensures Canonical(Encode(p, salt, key))
  {
    SplitOfEncode(p, salt, key);
    VersionText();
    ParamTextIsPlain(p);
    EncodeIsBase64(salt);
    UnbrokenIsKept(Encode64(salt));
    EncodeIsBase64(key);
    UnbrokenIsKept(Encode64(key));
  }

  /** A text that decodes prints again as it was if and only if it is canonical. */
  lemma ReprintsIffCanonical(s: string)
    requires Decode(s).Ok?
    ensures InRange(Decode(s).value.p)
    ensures Encode(Decode(s).value.p, Decode(s).value.salt, Decode(s).value.key) == s <==> Canonical(s)
  {
    var d := Decode(s).value;
    DecodedParts(s);
    PrintsAreCanonical(d.p, d.salt, d.key);
    if Canonical(s) {
      CanonicalReprints(s);
    }
  }

  ghost predicate Printed(s: string) {
    exists p, salt, key :: InRange(p) && Encode(p, salt, key) == s
  }

  /** A text was printed by Encode, of some parameters and bytes, if and only if it decodes and is canonical. */
  lemma PrintedIff(s: string)
    ensures Printed(s) <==> Decode(s).Ok? && Canonical(s)
  {
    if Printed(s) {
      var p, salt, key :| InRange(p) && Encode(p, salt, key) == s;
      RoundTrip(p, salt, key);
      PrintsAreCanonical(p, salt, key);
    }
    if Decode(s).Ok? && Canonical(s) {
      CanonicalReprints(s);
    }
  }

  lemma FirstPartIsNotRead(x: string, y: string, ps: seq<string>)
    ensures DecodeParts([x] + ps) == DecodeParts([y] + ps)
  {
    var a, b := [x] + ps, [y] + ps;
    assert forall i :: 1 <= i < |a| ==> a[i] == ps[i - 1] == b[i];
  }

  /** Whatever stands before the first dollar, the same hash is read. */
  lemma AnythingBeforeTheFirstDollar(x: string, rest: string)
    requires Free(x, '$')
    ensures Decode(x + ['$'] + rest) == Decode(['$'] + rest)
  {
    SplitHead(x, rest, '$');
    SplitHead("", rest, '$');
    assert "" + ['$'] + rest == ['$'] + rest;
    FirstPartIsNotRead(x, "", Split(rest, '$'));
  }
}
