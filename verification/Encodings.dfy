/** The byte encodings under a cursor: UTF-8 of JavaScript strings, and unpadded base64url. */
module Encodings {
  import opened Wrappers
  import opened Json

  newtype Byte = b: int | 0 <= b < 0x100

  // ----- UTF-8 -----

  /** The UTF-8 form of the replacement character U+FFFD. */
  const REPLACEMENT: seq<Byte> := [0xEF, 0xBF, 0xBD]

  function CodePointOf(high: Unit, low: Unit): int
    requires IsHigh(high) && IsLow(low)
  {
    0x1_0000 + (high as int - 0xD800) * 0x400 + (low as int - 0xDC00)
  }

  function EncodeCodePoint(n: int): seq<Byte>
    requires 0 <= n < 0x11_0000
  {
    if n < 0x80 then [n as Byte]
    else if n < 0x800 then [(0xC0 + n / 64) as Byte, (0x80 + n % 64) as Byte]
    else if n < 0x1_0000 then
      [(0xE0 + n / 4096) as Byte, (0x80 + n / 64 % 64) as Byte, (0x80 + n % 64) as Byte]
    else
      [(0xF0 + n / 262144) as Byte, (0x80 + n / 4096 % 64) as Byte, (0x80 + n / 64 % 64) as Byte, (0x80 + n % 64) as Byte]
  }

  /** `Buffer.from(text, 'utf8')`: a lone surrogate becomes the replacement character. */
  function Utf8Encode(t: Text): seq<Byte> {
    if t == [] then []
    else if PairAhead(t) then EncodeCodePoint(CodePointOf(t[0], t[1])) + Utf8Encode(t[2..])
    else (if IsSurrogate(t[0]) then REPLACEMENT else EncodeCodePoint(t[0] as int)) + Utf8Encode(t[1..])
  }

  /** How many continuation bytes a lead byte calls for; none for a byte that cannot lead. */
  function Follows(lead: Byte): Option<nat> {
    if lead < 0x80 then Some(0)
    else if 0xC2 <= lead <= 0xDF then Some(1)
    else if 0xE0 <= lead <= 0xEF then Some(2)
    else if 0xF0 <= lead <= 0xF4 then Some(3)
    else None
  }

  /** The second byte is restricted further, to rule out overlong forms, surrogates and values past U+10FFFF. */
  predicate IsSecond(lead: Byte, b: Byte) {
    (if lead == 0xE0 then 0xA0 else if lead == 0xF0 then 0x90 else 0x80) <= b
    <= (if lead == 0xED then 0x9F else if lead == 0xF4 then 0x8F else 0xBF)
  }

  predicate IsContinuation(b: Byte) {
    0x80 <= b <= 0xBF
  }

  /** How many bytes behind the lead continue its sequence, up to `wanted`. */
  function Continues(bytes: seq<Byte>, wanted: nat): (n: nat)
    requires bytes != []
    ensures n <= wanted && n < |bytes|
  {
    if wanted == 0 || |bytes| < 2 || !IsSecond(bytes[0], bytes[1]) then 0
    else if wanted == 1 || |bytes| < 3 || !IsContinuation(bytes[2]) then 1
    else if wanted == 2 || |bytes| < 4 || !IsContinuation(bytes[3]) then 2
    else 3
  }

  /** The value of a complete sequence of `follows` continuation bytes behind the lead. */
  function SequenceValue(bytes: seq<Byte>, follows: nat): int
    requires follows <= 3 && follows < |bytes|
  {
    if follows == 0 then bytes[0] as int
    else if follows == 1 then (bytes[0] as int - 0xC0) * 64 + (bytes[1] as int - 0x80)
    else if follows == 2 then
      (bytes[0] as int - 0xE0) * 4096 + (bytes[1] as int - 0x80) * 64 + (bytes[2] as int - 0x80)
    else
      (bytes[0] as int - 0xF0) * 262144 + (bytes[1] as int - 0x80) * 4096
      + (bytes[2] as int - 0x80) * 64 + (bytes[3] as int - 0x80)
  }

  function UnitsOf(n: int): Text {
    if 0 <= n < 0x1_0000 then [n as Unit]
    else if 0x1_0000 <= n < 0x11_0000 then
      [(0xD800 + (n - 0x1_0000) / 0x400) as Unit, (0xDC00 + (n - 0x1_0000) % 0x400) as Unit]
    else [0xFFFD]
  }

  /** `buffer.toString('utf8')`: an ill-formed stretch becomes one replacement character. */
  function Utf8Decode(bytes: seq<Byte>): Text {
    if bytes == [] then []
    else
      match Follows(bytes[0])
      case None => [0xFFFD] + Utf8Decode(bytes[1..])
      case Some(wanted) =>
        var n := Continues(bytes, wanted);
        if n == wanted then UnitsOf(SequenceValue(bytes, n)) + Utf8Decode(bytes[n + 1..])
        else [0xFFFD] + Utf8Decode(bytes[n + 1..])
  }

  // ----- base64url: section 5 of RFC 4648 -----

  newtype Sextet = s: int | 0 <= s < 64

  function Sextets(bytes: seq<Byte>): seq<Sextet> {
    if bytes == [] then []
    else
      var a := bytes[0] as int;
      if |bytes| == 1 then [(a / 4) as Sextet, (a % 4 * 16) as Sextet]
      else
        var b := bytes[1] as int;
        if |bytes| == 2 then [(a / 4) as Sextet, (a % 4 * 16 + b / 16) as Sextet, (b % 16 * 4) as Sextet]
        else
          var c := bytes[2] as int;
          [(a / 4) as Sextet, (a % 4 * 16 + b / 16) as Sextet, (b % 16 * 4 + c / 64) as Sextet, (c % 64) as Sextet]
          + Sextets(bytes[3..])
  }

  /** Whole bytes out of sextets; a single trailing sextet holds none. */
  function Bytes(s: seq<Sextet>): seq<Byte> {
    if |s| < 2 then []
    else
      var a, b := s[0] as int, s[1] as int;
      var first := (a * 4 + b / 16) as Byte;
      if |s| == 2 then [first]
      else
        var c := s[2] as int;
        var second := (b % 16 * 16 + c / 4) as Byte;
        if |s| == 3 then [first, second]
        else [first, second, (c % 4 * 64 + s[3] as int) as Byte] + Bytes(s[4..])
  }

  /** The URL-safe alphabet: A-Z, a-z, 0-9, `-` and `_`. */
  function SextetUnit(s: Sextet): Unit {
    var n := s as int;
    if n < 26 then (0x41 + n) as Unit
    else if n < 52 then (0x61 + n - 26) as Unit
    else if n < 62 then (0x30 + n - 52) as Unit
    else if n == 62 then MINUS
    else 0x5F
  }

  /** Decoding accepts both base64 alphabets. */
  function UnitSextet(u: Unit): Option<Sextet> {
    var n := u as int;
    if 0x41 <= n <= 0x5A then Some((n - 0x41) as Sextet)
    else if 0x61 <= n <= 0x7A then Some((n - 0x61 + 26) as Sextet)
    else if 0x30 <= n <= 0x39 then Some((n - 0x30 + 52) as Sextet)
    else if u == MINUS || u == PLUS then Some(62)
    else if u == 0x5F || u == 0x2F then Some(63)
    else None
  }

  function Base64UrlEncode(bytes: seq<Byte>): Text {
    var s := Sextets(bytes);
    seq(|s|, i requires 0 <= i < |s| => SextetUnit(s[i]))
  }

  /** Units outside the alphabets are passed over. */
  function ReadSextets(t: Text): seq<Sextet> {
    if t == [] then []
    else (if UnitSextet(t[0]).Some? then [UnitSextet(t[0]).value] else []) + ReadSextets(t[1..])
  }

  function Base64UrlDecode(t: Text): seq<Byte> {
    Bytes(ReadSextets(t))
  }

  // ----- Round trips -----

  lemma OneByteSextets(a: int)
    requires 0 <= a < 256
    ensures a / 4 * 4 + a % 4 * 16 / 16 == a && a % 4 * 16 < 64
  {
  }

  lemma TwoByteSextets(a: int, b: int)
    requires 0 <= a < 256 && 0 <= b < 256
    ensures var x, y, z := a / 4, a % 4 * 16 + b / 16, b % 16 * 4;
            x * 4 + y / 16 == a && y % 16 * 16 + z / 4 == b
  {
    assert (a % 4 * 16 + b / 16) / 16 == a % 4 && (a % 4 * 16 + b / 16) % 16 == b / 16;
  }

  lemma ThreeByteSextets(a: int, b: int, c: int)
    requires 0 <= a < 256 && 0 <= b < 256 && 0 <= c < 256
    ensures var x, y, z, w := a / 4, a % 4 * 16 + b / 16, b % 16 * 4 + c / 64, c % 64;
            x * 4 + y / 16 == a && y % 16 * 16 + z / 4 == b && z % 4 * 64 + w == c
  {
    assert (a % 4 * 16 + b / 16) / 16 == a % 4 && (a % 4 * 16 + b / 16) % 16 == b / 16;
    assert (b % 16 * 4 + c / 64) / 4 == b % 16 && (b % 16 * 4 + c / 64) % 4 == c / 64;
  }

  lemma {:induction false} SextetsRoundTrip(bytes: seq<Byte>)
    ensures Bytes(Sextets(bytes)) == bytes
    decreases |bytes|
  {
    if |bytes| == 1 {
      OneByteSextets(bytes[0] as int);
    } else if |bytes| == 2 {
      TwoByteSextets(bytes[0] as int, bytes[1] as int);
    } else if |bytes| > 2 {
      ThreeByteSextets(bytes[0] as int, bytes[1] as int, bytes[2] as int);
      SextetsRoundTrip(bytes[3..]);
      assert Sextets(bytes)[4..] == Sextets(bytes[3..]);
      assert bytes == bytes[..3] + bytes[3..];
    }
  }

  lemma {:induction false} UnitsRoundTrip(s: seq<Sextet>)
    ensures ReadSextets(seq(|s|, i requires 0 <= i < |s| => SextetUnit(s[i]))) == s
  {
    if s != [] {
      UnitsRoundTrip(s[1..]);
      var t := seq(|s|, i requires 0 <= i < |s| => SextetUnit(s[i]));
      assert t[1..] == seq(|s[1..]|, i requires 0 <= i < |s[1..]| => SextetUnit(s[1..][i]));
      assert UnitSextet(SextetUnit(s[0])) == Some(s[0]);
      assert s == [s[0]] + s[1..];
    }
  }

  lemma Base64UrlRoundTrip(bytes: seq<Byte>)
    ensures Base64UrlDecode(Base64UrlEncode(bytes)) == bytes
  {
    UnitsRoundTrip(Sextets(bytes));
    SextetsRoundTrip(bytes);
  }

  /** No lone surrogates. */
  predicate WellFormed(t: Text) {
    t == [] || if PairAhead(t) then WellFormed(t[2..]) else !IsSurrogate(t[0]) && WellFormed(t[1..])
  }

  lemma TwoByteSequence(n: int, rest: seq<Byte>)
    requires 0x80 <= n < 0x800
    ensures Utf8Decode(EncodeCodePoint(n) + rest) == [n as Unit] + Utf8Decode(rest)
  {
    var bytes := EncodeCodePoint(n) + rest;
    assert n == n / 64 * 64 + n % 64;
    assert Follows(bytes[0]) == Some(1) && Continues(bytes, 1) == 1;
    assert SequenceValue(bytes, 1) == n && bytes[2..] == rest;
  }

  lemma ThreeByteSequence(n: int, rest: seq<Byte>)
    requires 0x800 <= n < 0x1_0000 && !IsSurrogate(n as Unit)
    ensures Utf8Decode(EncodeCodePoint(n) + rest) == [n as Unit] + Utf8Decode(rest)
  {
    var bytes := EncodeCodePoint(n) + rest;
    var a, b := n / 4096, n / 64 % 64;
    assert n / 64 == a * 64 + b && n == n / 64 * 64 + n % 64;
    assert Follows(bytes[0]) == Some(2);
    assert IsSecond(bytes[0], bytes[1]) && IsContinuation(bytes[2]);
    assert SequenceValue(bytes, 2) == n && bytes[3..] == rest;
  }

  lemma FourByteDigits(n: int)
    requires 0x1_0000 <= n < 0x11_0000
    ensures var a, b, c, d := n / 262144, n / 4096 % 64, n / 64 % 64, n % 64;
            && a * 262144 + b * 4096 + c * 64 + d == n
            && 0 <= a <= 4 && (a == 0 ==> b >= 16) && (a == 4 ==> b < 16)
  {
    var a, b, c := n / 262144, n / 4096 % 64, n / 64 % 64;
    assert n / 4096 == a * 64 + b && n / 64 == n / 4096 * 64 + c && n == n / 64 * 64 + n % 64;
  }

  /** A complete sequence of four bytes is read as one code point. */
  lemma FourBytesDecode(head: seq<Byte>, rest: seq<Byte>)
    requires |head| == 4 && Follows(head[0]) == Some(3)
    requires IsSecond(head[0], head[1]) && IsContinuation(head[2]) && IsContinuation(head[3])
    ensures Utf8Decode(head + rest) == UnitsOf(SequenceValue(head, 3)) + Utf8Decode(rest)
  {
    var bytes := head + rest;
    assert SequenceValue(bytes, 3) == SequenceValue(head, 3) && bytes[4..] == rest;
  }

  lemma FourByteSequence(n: int, rest: seq<Byte>)
    requires 0x1_0000 <= n < 0x11_0000
    ensures Utf8Decode(EncodeCodePoint(n) + rest) == UnitsOf(n) + Utf8Decode(rest)
  {
    FourByteDigits(n);
    var head := EncodeCodePoint(n);
    assert SequenceValue(head, 3) == n;
    FourBytesDecode(head, rest);
  }

  lemma PairUnits(high: Unit, low: Unit)
    requires IsHigh(high) && IsLow(low)
    ensures 0x1_0000 <= CodePointOf(high, low) < 0x11_0000 && UnitsOf(CodePointOf(high, low)) == [high, low]
  {
    var h, l := high as int - 0xD800, low as int - 0xDC00;
    assert (h * 0x400 + l) / 0x400 == h && (h * 0x400 + l) % 0x400 == l;
  }

  lemma UnitSequence(u: Unit, rest: seq<Byte>)
    requires !IsSurrogate(u)
    ensures Utf8Decode(EncodeCodePoint(u as int) + rest) == [u] + Utf8Decode(rest)
  {
    if u < 0x80 {
      assert ([u as int as Byte] + rest)[1..] == rest;
    } else if u < 0x800 {
      TwoByteSequence(u as int, rest);
    } else {
      ThreeByteSequence(u as int, rest);
    }
  }

  lemma {:induction false} Utf8RoundTrip(t: Text)
    requires WellFormed(t)
    ensures Utf8Decode(Utf8Encode(t)) == t
    decreases |t|
  {
    if t == [] {
    } else if PairAhead(t) {
      Utf8RoundTrip(t[2..]);
      PairUnits(t[0], t[1]);
      FourByteSequence(CodePointOf(t[0], t[1]), Utf8Encode(t[2..]));
      assert t == [t[0], t[1]] + t[2..];
    } else {
      Utf8RoundTrip(t[1..]);
      UnitSequence(t[0], Utf8Encode(t[1..]));
      assert t == [t[0]] + t[1..];
    }
  }
}
