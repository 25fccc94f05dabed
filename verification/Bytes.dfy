/**
 The byte encodings behind every token of the gateway: hexadecimal (section 8 of RFC 4648),
 base64url (section 5 of RFC 4648) and UTF-8, as the host's `Buffer` reads and writes them.
 The decoders are total: like `Buffer`, they never fail.
 */
module Bytes {

  type byte = b: int | 0 <= b < 256

  // ----- hexadecimal -----

  function HexDigit(v: int): char
    requires 0 <= v < 16
  {
    if v < 10 then (v + '0' as int) as char else (v - 10 + 'a' as int) as char
  }

  /** The value of a hex digit of either case, or -1. */
  function HexValue(c: char): (v: int)
    ensures -1 <= v < 16
  {
    if '0' <= c <= '9' then c as int - '0' as int
    else if 'a' <= c <= 'f' then c as int - 'a' as int + 10
    else if 'A' <= c <= 'F' then c as int - 'A' as int + 10
    else -1
  }

  function HexEncode(bytes: seq<byte>): string {
    if bytes == [] then ""
    else [HexDigit(bytes[0] / 16), HexDigit(bytes[0] % 16)] + HexEncode(bytes[1..])
  }

  /** Reads digit pairs and stops at the first pair that is not hexadecimal. */
  function HexDecode(s: string): seq<byte> {
    if |s| < 2 || HexValue(s[0]) < 0 || HexValue(s[1]) < 0 then []
    else [(HexValue(s[0]) * 16 + HexValue(s[1])) as byte] + HexDecode(s[2..])
  }

  lemma HexDigitValue(v: int)
    requires 0 <= v < 16
    ensures HexValue(HexDigit(v)) == v
  {
  }

  lemma {:induction false} HexRoundTrip(bytes: seq<byte>)
    ensures HexDecode(HexEncode(bytes)) == bytes
  {
    if bytes == [] {
    } else {
      HexDigitValue(bytes[0] / 16);
      HexDigitValue(bytes[0] % 16);
      HexRoundTrip(bytes[1..]);
      assert HexEncode(bytes)[2..] == HexEncode(bytes[1..]);
    }
  }

  const HEX_DIGITS := "0123456789abcdef"

  /** Two digits a byte, the high half first. */
  lemma {:induction false} HexEncodeAt(bytes: seq<byte>, i: nat)
    requires i < |bytes|
    ensures |HexEncode(bytes)| == 2 * |bytes|
    ensures HexEncode(bytes)[2 * i] == HEX_DIGITS[bytes[i] / 16]
    ensures HexEncode(bytes)[2 * i + 1] == HEX_DIGITS[bytes[i] % 16]
  {
    var rest := HexEncode(bytes[1..]);
    if i == 0 {
      HexEncodeLength(bytes[1..]);
      HexDigitIs(bytes[0] / 16);
      HexDigitIs(bytes[0] % 16);
    } else {
      HexEncodeAt(bytes[1..], i - 1);
      assert HexEncode(bytes)[2 * i] == rest[2 * (i - 1)] && HexEncode(bytes)[2 * i + 1] == rest[2 * (i - 1) + 1];
    }
  }

  lemma HexValueIs(c: char, v: int)
    requires 0 <= v < 16
    ensures var n := c as int;
      HexValue(c) == v <==> (v < 10 && n == 48 + v) || (v >= 10 && (n == 87 + v || n == 55 + v))
  {
  }

  lemma HexDigitIs(v: int)
    requires 0 <= v < 16
    ensures HexDigit(v) == HEX_DIGITS[v]
  {
  }

  lemma {:induction false} HexEncodeLength(bytes: seq<byte>)
    ensures |HexEncode(bytes)| == 2 * |bytes|
  {
    if bytes == [] {
    } else {
      HexEncodeLength(bytes[1..]);
    }
  }

  /** Digits of either case are read in pairs. */
  lemma {:induction false} HexDecodeReads(s: string)
    requires |s| % 2 == 0 && forall k :: 0 <= k < |s| ==> HexValue(s[k]) >= 0
    ensures |HexDecode(s)| == |s| / 2
    ensures forall k :: 0 <= k < |s| / 2 ==> HexDecode(s)[k] == HexValue(s[2 * k]) * 16 + HexValue(s[2 * k + 1])
  {
    if s == "" {
    } else {
      HexDecodeReads(s[2..]);
      forall k | 0 <= k < |s| / 2
        ensures HexDecode(s)[k] == HexValue(s[2 * k]) * 16 + HexValue(s[2 * k + 1])
      {
        if k > 0 {
          assert s[2..][2 * (k - 1)] == s[2 * k] && s[2..][2 * (k - 1) + 1] == s[2 * k + 1];
        }
      }
    }
  }

  // ----- base64url -----

  type sextet = v: int | 0 <= v < 64

  function SextetChar(v: sextet): char {
    if v < 26 then (v + 'A' as int) as char
    else if v < 52 then (v - 26 + 'a' as int) as char
    else if v < 62 then (v - 52 + '0' as int) as char
    else if v == 62 then '-' else '_'
  }

  /** Both alphabets are read, as the host does; -1 marks a character outside them. */
  function SextetValue(c: char): (v: int)
    ensures -1 <= v < 64
  {
    if 'A' <= c <= 'Z' then c as int - 'A' as int
    else if 'a' <= c <= 'z' then c as int - 'a' as int + 26
    else if '0' <= c <= '9' then c as int - '0' as int + 52
    else if c == '-' || c == '+' then 62
    else if c == '_' || c == '/' then 63
    else -1
  }

  // The four sextets that carry three bytes.
  function Sextet1(x: int): sextet
    requires 0 <= x < 256
  {
    x / 4
  }

  function Sextet2(x: int, y: int): sextet
    requires 0 <= x < 256 && 0 <= y < 256
  {
    x % 4 * 16 + y / 16
  }

  function Sextet3(y: int, z: int): sextet
    requires 0 <= y < 256 && 0 <= z < 256
  {
    y % 16 * 4 + z / 64
  }

  function Sextet4(z: int): sextet
    requires 0 <= z < 256
  {
    z % 64
  }

  /** `toString('base64url')`: no padding. */
  function Base64Encode(b: seq<byte>): string {
    if |b| == 0 then ""
    else if |b| == 1 then [SextetChar(Sextet1(b[0])), SextetChar(Sextet2(b[0], 0))]
    else if |b| == 2 then
      [SextetChar(Sextet1(b[0])), SextetChar(Sextet2(b[0], b[1])), SextetChar(Sextet3(b[1], 0))]
    else
      [SextetChar(Sextet1(b[0])), SextetChar(Sextet2(b[0], b[1])),
       SextetChar(Sextet3(b[1], b[2])), SextetChar(Sextet4(b[2]))] + Base64Encode(b[3..])
  }

  /** The alphabet characters of a text up to the padding; everything else is skipped. */
  function Sextets(s: string): seq<sextet> {
    if s == "" || s[0] == '=' then []
    else if SextetValue(s[0]) < 0 then Sextets(s[1..])
    else [SextetValue(s[0])] + Sextets(s[1..])
  }

  // The three bytes that four sextets carry.
  function Byte1(v: int, w: int): byte
    requires 0 <= v < 64 && 0 <= w < 64
  {
    v * 4 + w / 16
  }

  function Byte2(v: int, w: int): byte
    requires 0 <= v < 64 && 0 <= w < 64
  {
    v % 16 * 16 + w / 4
  }

  function Byte3(v: int, w: int): byte
    requires 0 <= v < 64 && 0 <= w < 64
  {
    v % 4 * 64 + w
  }

  /** Four sextets give three bytes; a short last group gives what whole bytes it holds. */
  function Assemble(v: seq<sextet>): seq<byte> {
    if |v| < 2 then []
    else if |v| == 2 then [Byte1(v[0], v[1])]
    else if |v| == 3 then [Byte1(v[0], v[1]), Byte2(v[1], v[2])]
    else [Byte1(v[0], v[1]), Byte2(v[1], v[2]), Byte3(v[2], v[3])] + Assemble(v[4..])
  }

  /** `Buffer.from(s, 'base64url')`. */
  function Base64Decode(s: string): seq<byte> {
    Assemble(Sextets(s))
  }

  lemma SextetsHead(c: char, rest: string)
    requires SextetValue(c) >= 0
    ensures Sextets([c] + rest) == [SextetValue(c)] + Sextets(rest)
  {
    assert ([c] + rest)[1..] == rest;
  }

  lemma SextetsTwo(a: sextet, b: sextet, rest: string)
    ensures Sextets([SextetChar(a), SextetChar(b)] + rest) == [a, b] + Sextets(rest)
  {
    var w, x := SextetChar(a), SextetChar(b);
    assert [w, x] + rest == [w] + ([x] + rest);
    SextetsHead(w, [x] + rest);
    SextetsHead(x, rest);
  }

  lemma SextetsFour(a: sextet, b: sextet, c: sextet, d: sextet, rest: string)
    ensures Sextets([SextetChar(a), SextetChar(b), SextetChar(c), SextetChar(d)] + rest)
            == [a, b, c, d] + Sextets(rest)
  {
    var front, back := [SextetChar(a), SextetChar(b)], [SextetChar(c), SextetChar(d)];
    assert [SextetChar(a), SextetChar(b), SextetChar(c), SextetChar(d)] + rest == front + (back + rest);
    SextetsTwo(a, b, back + rest);
    SextetsTwo(c, d, rest);
  }

  lemma SextetsShort(a: sextet, b: sextet)
    ensures Sextets([SextetChar(a), SextetChar(b)]) == [a, b]
  {
    SextetsHead(SextetChar(a), [SextetChar(b)]);
    SextetsHead(SextetChar(b), "");
    assert [SextetChar(a), SextetChar(b)] == [SextetChar(a)] + [SextetChar(b)];
    assert [SextetChar(b)] == [SextetChar(b)] + "";
  }

  lemma SextetsThree(a: sextet, b: sextet, c: sextet)
    ensures Sextets([SextetChar(a), SextetChar(b), SextetChar(c)]) == [a, b, c]
  {
    SextetsHead(SextetChar(a), [SextetChar(b), SextetChar(c)]);
    SextetsShort(b, c);
    assert [SextetChar(a), SextetChar(b), SextetChar(c)]
        == [SextetChar(a)] + [SextetChar(b), SextetChar(c)];
  }

  lemma AssembleFour(p: sextet, q: sextet, r: sextet, t: sextet, rest: seq<sextet>)
    ensures Assemble([p, q, r, t] + rest) == [Byte1(p, q), Byte2(q, r), Byte3(r, t)] + Assemble(rest)
  {
    assert ([p, q, r, t] + rest)[4..] == rest;
  }

  lemma GroupRoundTrip(x: byte, y: byte, z: byte)
    ensures Byte1(Sextet1(x), Sextet2(x, y)) == x
    ensures Byte2(Sextet2(x, y), Sextet3(y, z)) == y
    ensures Byte3(Sextet3(y, z), Sextet4(z)) == z
  {
  }

  lemma FullGroup(x: byte, y: byte, z: byte, tail: string)
    ensures Base64Decode([SextetChar(Sextet1(x)), SextetChar(Sextet2(x, y)),
                          SextetChar(Sextet3(y, z)), SextetChar(Sextet4(z))] + tail)
            == [x, y, z] + Base64Decode(tail)
  {
    var p, q, r, t := Sextet1(x), Sextet2(x, y), Sextet3(y, z), Sextet4(z);
    GroupRoundTrip(x, y, z);
    SextetsFour(p, q, r, t, tail);
    AssembleFour(p, q, r, t, Sextets(tail));
  }

  lemma FirstByte(x: byte, y: byte)
    ensures Byte1(Sextet1(x), Sextet2(x, y)) == x
  {
  }

  lemma OneByteGroup(x: byte)
    ensures Base64Decode(Base64Encode([x])) == [x]
  {
    var p, q := Sextet1(x), Sextet2(x, 0);
    assert Byte1(p, q) == x by { FirstByte(x, 0); }
    assert Base64Encode([x]) == [SextetChar(p), SextetChar(q)];
    assert Sextets([SextetChar(p), SextetChar(q)]) == [p, q] by { SextetsShort(p, q); }
  }

  lemma TwoByteGroup(x: byte, y: byte)
    ensures Base64Decode(Base64Encode([x, y])) == [x, y]
  {
    var p, q, r := Sextet1(x), Sextet2(x, y), Sextet3(y, 0);
    SextetsThree(p, q, r);
    GroupRoundTrip(x, y, 0);
    assert Assemble([p, q, r]) == [Byte1(p, q), Byte2(q, r)];
  }

  lemma {:induction false} Base64RoundTrip(b: seq<byte>)
    ensures Base64Decode(Base64Encode(b)) == b
  {
    if |b| == 1 {
      OneByteGroup(b[0]);
      assert b == [b[0]];
    } else if |b| == 2 {
      TwoByteGroup(b[0], b[1]);
      assert b == [b[0], b[1]];
    } else if |b| >= 3 {
      FullGroup(b[0], b[1], b[2], Base64Encode(b[3..]));
      Base64RoundTrip(b[3..]);
      assert b == [b[0], b[1], b[2]] + b[3..];
    }
  }

  /** The encoder writes only the 64 alphabet characters, so never the '.' of a JWT. */
  lemma {:induction false} Base64Alphabet(b: seq<byte>)
    ensures forall c :: c in Base64Encode(b) ==> SextetValue(c) >= 0
    ensures '.' !in Base64Encode(b)
  {
    if |b| < 3 {
    } else {
      Base64Alphabet(b[3..]);
    }
  }

  /** Table 2 of RFC 4648, by code point, with the two other characters that are read as well. */
  predicate StandsFor(c: char, v: int) {
    var n := c as int;
    || (0 <= v < 26 && n == 65 + v) || (26 <= v < 52 && n == 97 + (v - 26)) || (52 <= v < 62 && n == 48 + (v - 52))
    || (v == 62 && (n == 45 || n == 43)) || (v == 63 && (n == 95 || n == 47))
  }

  lemma AlphabetIs(v: sextet, c: char)
    ensures StandsFor(SextetChar(v), v) && SextetChar(v) !in "+/"
    ensures SextetValue(c) == v <==> StandsFor(c, v)
  {
  }

  /** The sum of the values of four characters, the first weighing most; a missing one counts nothing. */
  function Bits(out: string): int {
    (if |out| > 0 then SextetValue(out[0]) * 262144 else 0) + (if |out| > 1 then SextetValue(out[1]) * 4096 else 0)
    + (if |out| > 2 then SextetValue(out[2]) * 64 else 0) + (if |out| > 3 then SextetValue(out[3]) else 0)
  }

  lemma GroupBits(x: byte, y: byte, z: byte)
    ensures Sextet1(x) * 262144 + Sextet2(x, y) * 4096 + Sextet3(y, z) * 64 + Sextet4(z) == x * 65536 + y * 256 + z
  {
  }

  lemma ShortGroupBits(x: byte, y: byte)
    ensures Sextet1(x) * 262144 + Sextet2(x, 0) * 4096 == x * 65536
    ensures Sextet1(x) * 262144 + Sextet2(x, y) * 4096 + Sextet3(y, 0) * 64 == x * 65536 + y * 256
  {
  }

  lemma SextetCharValue(v: sextet)
    ensures SextetValue(SextetChar(v)) == v
  {
  }

  function Weigh(x: int, y: int, z: int): int {
    x * 65536 + y * 256 + z
  }

  /** Section 5 of RFC 4648: three bytes as four characters that carry the same bits, and no padding. */
  lemma Base64IsRfc4648(b: seq<byte>)
    ensures |b| == 0 ==> Base64Encode(b) == ""
    ensures |b| == 1 ==> |Base64Encode(b)| == 2 && Bits(Base64Encode(b)) == Weigh(b[0], 0, 0)
    ensures |b| == 2 ==> |Base64Encode(b)| == 3 && Bits(Base64Encode(b)) == Weigh(b[0], b[1], 0)
    ensures |b| >= 3 ==>
      |Base64Encode(b)| >= 4 && Bits(Base64Encode(b)[..4]) == Weigh(b[0], b[1], b[2])
      && Base64Encode(b)[4..] == Base64Encode(b[3..])
  {
    if |b| > 0 {
      var x, y, z := b[0], if |b| > 1 then b[1] else 0, if |b| > 2 then b[2] else 0;
      GroupBits(x, y, z);
      ShortGroupBits(x, y);
      SextetCharValue(Sextet1(x));
      SextetCharValue(Sextet2(x, y));
      SextetCharValue(Sextet3(y, z));
      SextetCharValue(Sextet4(z));
    }
  }

  /** A character outside the alphabet makes no difference, and nothing does after the padding. */
  lemma DecodeSkips(a: string, c: char, b: string)
    requires '=' !in a && forall v :: !StandsFor(c, v)
    ensures c != '=' ==> Base64Decode(a + [c] + b) == Base64Decode(a + b)
    ensures c == '=' ==> Base64Decode(a + [c] + b) == Base64Decode(a)
  {
    SextetsSkip(a, c, b);
  }

  lemma {:induction false} SextetsSkip(a: string, c: char, b: string)
    requires '=' !in a && forall v :: !StandsFor(c, v)
    ensures Sextets(a + [c] + b) == if c == '=' then Sextets(a) else Sextets(a + b)
  {
    var s := a + [c] + b;
    if a == "" {
      assert SextetValue(c) >= 0 ==> StandsFor(c, SextetValue(c));
      assert s == [c] + b && s[1..] == b && a + b == b;
    } else {
      assert s[1..] == a[1..] + [c] + b && (a + b)[1..] == a[1..] + b;
      SextetsSkip(a[1..], c, b);
    }
  }

  // ----- UTF-8 -----

  function Utf8Char(c: char): (r: seq<byte>)
    ensures 1 <= |r| <= 4
  {
    var n := c as int;
    if n < 0x80 then [n]
    else if n < 0x800 then [0xC0 + n / 64, 0x80 + n % 64]
    else if n < 0x1_0000 then [0xE0 + n / 4096, 0x80 + n / 64 % 64, 0x80 + n % 64]
    else [0xF0 + n / 262144, 0x80 + n / 4096 % 64, 0x80 + n / 64 % 64, 0x80 + n % 64]
  }

  /** `r` is the form of `n` in this many bytes: a lead byte, then six bits a byte. */
  predicate Spells(r: seq<byte>, lead: int, n: int) {
    && r != [] && lead <= r[0] && (forall i :: 1 <= i < |r| ==> 0x80 <= r[i] < 0xC0)
    && SpelledBits(r, r[0] as int - lead, 1) == n
  }

  function SpelledBits(r: seq<byte>, high: int, i: nat): int
    decreases |r| - i
  {
    if i >= |r| then high else SpelledBits(r, high * 64 + (r[i] as int - 0x80), i + 1)
  }

  /** Section 3 of RFC 3629: one to four bytes by the size of the code point, which their bits spell. */
  lemma Utf8IsRfc3629(c: char)
    ensures var (n, r) := (c as int, Utf8Char(c));
      && (n < 0x80 ==> |r| == 1 && Spells(r, 0, n))
      && (0x80 <= n < 0x800 ==> |r| == 2 && Spells(r, 0xC0, n))
      && (0x800 <= n < 0x1_0000 ==> |r| == 3 && Spells(r, 0xE0, n))
      && (0x1_0000 <= n ==> |r| == 4 && Spells(r, 0xF0, n))
  {
    var n, r := c as int, Utf8Char(c);
    if n < 0x80 {
      assert SpelledBits(r, n, 1) == n;
    } else if n < 0x800 {
      assert SpelledBits(r, r[0] as int - 0xC0, 1) == (r[0] as int - 0xC0) * 64 + (r[1] as int - 0x80);
    } else if n < 0x1_0000 {
      ThreeByteCode(n);
      var two := (r[0] as int - 0xE0) * 64 + (r[1] as int - 0x80);
      assert SpelledBits(r, two, 2) == two * 64 + (r[2] as int - 0x80);
    } else {
      FourByteCode(n);
      var two := (r[0] as int - 0xF0) * 64 + (r[1] as int - 0x80);
      var three := two * 64 + (r[2] as int - 0x80);
      assert SpelledBits(r, three, 3) == three * 64 + (r[3] as int - 0x80);
      assert SpelledBits(r, two, 2) == SpelledBits(r, three, 3);
    }
  }

  /** `Buffer.from(s)`. */
  function Utf8Encode(s: string): seq<byte> {
    if s == "" then [] else Utf8Char(s[0]) + Utf8Encode(s[1..])
  }

  const REPLACEMENT: char := '\U{fffd}'

  // Code points of a two-, three- and four-byte sequence.
  function Code2(x: int, y: int): int {
    (x - 0xC0) * 64 + (y - 0x80)
  }

  function Code3(x: int, y: int, z: int): int {
    (x - 0xE0) * 4096 + (y - 0x80) * 64 + (z - 0x80)
  }

  function Code4(x: int, y: int, z: int, w: int): int {
    (x - 0xF0) * 262144 + (y - 0x80) * 4096 + (z - 0x80) * 64 + (w - 0x80)
  }

  predicate Continuation(b: seq<byte>, i: nat, lo: int, hi: int) {
    i < |b| && lo <= b[i] <= hi
  }

  /**
   One decoding step: the character and how many bytes it used. An ill-formed sequence
   gives one replacement character for its longest well-formed beginning.
   */
  function Utf8Step(b: seq<byte>): (r: (char, nat))
    requires b != []
    ensures 1 <= r.1 <= |b|
  {
    var x := b[0];
    if x < 0x80 then (x as char, 1)
    else if 0xC2 <= x <= 0xDF then
      if Continuation(b, 1, 0x80, 0xBF) then (Code2(x, b[1]) as char, 2) else (REPLACEMENT, 1)
    else if 0xE0 <= x <= 0xEF then
      if !Continuation(b, 1, if x == 0xE0 then 0xA0 else 0x80, if x == 0xED then 0x9F else 0xBF)
      then (REPLACEMENT, 1)
      else if !Continuation(b, 2, 0x80, 0xBF) then (REPLACEMENT, 2)
      else (Code3(x, b[1], b[2]) as char, 3)
    else if 0xF0 <= x <= 0xF4 then
      if !Continuation(b, 1, if x == 0xF0 then 0x90 else 0x80, if x == 0xF4 then 0x8F else 0xBF)
      then (REPLACEMENT, 1)
      else if !Continuation(b, 2, 0x80, 0xBF) then (REPLACEMENT, 2)
      else if !Continuation(b, 3, 0x80, 0xBF) then (REPLACEMENT, 3)
      else (Code4(x, b[1], b[2], b[3]) as char, 4)
    else (REPLACEMENT, 1)
  }

  /** A decoded character is the one that the bytes used spell, or the mark of an ill-formed sequence. */
  lemma StepIsWellFormed(b: seq<byte>)
    requires b != []
    ensures var (c, used) := Utf8Step(b); c == '\U{fffd}' || Utf8Char(c) == b[..used]
  {
    var x := b[0];
    var (c, used) := Utf8Step(b);
    if c != REPLACEMENT {
      if x < 0x80 {
      } else if x < 0xE0 {
        TwoByteChar(x, b[1]);
      } else if x < 0xF0 {
        ThreeByteChar(x, b[1], b[2]);
      } else {
        FourByteChar(x, b[1], b[2], b[3]);
      }
    }
  }

  lemma TwoByteChar(x: byte, y: byte)
    requires 0xC2 <= x <= 0xDF && 0x80 <= y <= 0xBF
    ensures Utf8Char(Code2(x, y) as char) == [x, y]
  {
  }

  lemma ThreeByteChar(x: byte, y: byte, z: byte)
    requires 0xE0 <= x <= 0xEF && 0x80 <= y <= 0xBF && 0x80 <= z <= 0xBF
    requires (x == 0xE0 ==> 0xA0 <= y) && (x == 0xED ==> y <= 0x9F)
    ensures Utf8Char(Code3(x, y, z) as char) == [x, y, z]
  {
    var n := Code3(x, y, z);
    ThreeBits(x - 0xE0, y - 0x80, z - 0x80);
    assert n == ((x - 0xE0) * 64 + (y - 0x80)) * 64 + (z - 0x80);
  }

  lemma ThreeBits(p: int, q: int, r: int)
    requires 0 <= p && 0 <= q < 64 && 0 <= r < 64
    ensures var n := (p * 64 + q) * 64 + r; n / 64 == p * 64 + q && n % 64 == r && n / 4096 == p && n / 64 % 64 == q
  {
    var n := (p * 64 + q) * 64 + r;
    DividedTwice(n);
    assert n / 64 == p * 64 + q;
  }

  lemma FourByteChar(x: byte, y: byte, z: byte, w: byte)
    requires 0xF0 <= x <= 0xF4 && 0x80 <= y <= 0xBF && 0x80 <= z <= 0xBF && 0x80 <= w <= 0xBF
    requires (x == 0xF0 ==> 0x90 <= y) && (x == 0xF4 ==> y <= 0x8F)
    ensures Utf8Char(Code4(x, y, z, w) as char) == [x, y, z, w]
  {
    var n := Code4(x, y, z, w);
    var high := (x - 0xF0) * 64 + (y - 0x80);
    ThreeBits(high, z - 0x80, w - 0x80);
    assert n == (high * 64 + (z - 0x80)) * 64 + (w - 0x80);
    assert n / 262144 == n / 4096 / 64 by {
      DividedTwice(n);
      assert n / 262144 == n / 64 / 64 / 64;
    }
  }

  /** An ill-formed sequence gives one mark for its longest well-formed beginning, as at the end of a text. */
  lemma IllFormedSteps(rest: seq<byte>)
    ensures Utf8Step([0x80] + rest) == Utf8Step([0xFF] + rest) == ('\U{fffd}', 1)
    ensures Utf8Step([0xC1, 0xBF] + rest) == Utf8Step([0xED, 0xA0] + rest) == ('\U{fffd}', 1)
    ensures Utf8Step([0xC3]) == ('\U{fffd}', 1) && Utf8Step([0xE2, 0x82]) == ('\U{fffd}', 2)
    ensures Utf8Step([0xF0, 0x9F, 0x98]) == ('\U{fffd}', 3) && Utf8Step([0xE2, 0x82, 0x41] + rest) == ('\U{fffd}', 2)
  {
  }

  /** `buffer.toString()`. */
  function Utf8Decode(b: seq<byte>): string {
    if b == [] then ""
    else
      var (c, used) := Utf8Step(b);
      [c] + Utf8Decode(b[used..])
  }

  lemma ThreeByteCode(n: int)
    requires 0x800 <= n < 0x1_0000
    ensures Code3(0xE0 + n / 4096, 0x80 + n / 64 % 64, 0x80 + n % 64) == n
    ensures 0xE0 <= 0xE0 + n / 4096 <= 0xEF
    ensures n < 0x1000 ==> n / 64 % 64 >= 0x20
    ensures 0xD000 <= n < 0xD800 ==> n / 64 % 64 < 0x20
    ensures n / 4096 == 0 <==> n < 0x1000
    ensures n / 4096 == 0xD <==> 0xD000 <= n < 0xE000
  {
  }

  lemma DividedTwice(n: int)
    requires n >= 0
    ensures n / 4096 == n / 64 / 64
  {
  }

  lemma FourByteCode(n: int)
    requires 0x1_0000 <= n < 0x11_0000
    ensures Code4(0xF0 + n / 262144, 0x80 + n / 4096 % 64, 0x80 + n / 64 % 64, 0x80 + n % 64) == n
    ensures 0xF0 <= 0xF0 + n / 262144 <= 0xF4
    ensures n / 262144 == 0 ==> n / 4096 % 64 >= 0x10
    ensures n / 262144 == 4 ==> n / 4096 % 64 < 0x10
  {
    var q := n / 64;
    var r := n / 4096;
    DividedTwice(n);
    assert r == q / 64 && n / 262144 == r / 64;
  }

  lemma Utf8StepUndoesChar(c: char, rest: seq<byte>)
    ensures Utf8Step(Utf8Char(c) + rest) == (c, |Utf8Char(c)|)
  {
    var n := c as int;
    if n < 0x80 {
    } else if n < 0x800 {
      assert Utf8Step([0xC0 + n / 64, 0x80 + n % 64] + rest) == (c, 2);
    } else if n < 0x1_0000 {
      ThreeByteCode(n);
      var x: byte, y: byte, z: byte := 0xE0 + n / 4096, 0x80 + n / 64 % 64, 0x80 + n % 64;
      assert Utf8Char(c) == [x, y, z];
      ThreeByteStep(x, y, z, rest);
    } else {
      FourByteCode(n);
      var x: byte, y: byte, z: byte, w: byte :=
        0xF0 + n / 262144, 0x80 + n / 4096 % 64, 0x80 + n / 64 % 64, 0x80 + n % 64;
      assert Utf8Char(c) == [x, y, z, w];
      FourByteStep(x, y, z, w, rest);
    }
  }

  lemma ThreeByteStep(x: byte, y: byte, z: byte, rest: seq<byte>)
    requires 0xE0 <= x <= 0xEF && 0x80 <= y <= 0xBF && 0x80 <= z <= 0xBF
    requires x == 0xE0 ==> 0xA0 <= y
    requires x == 0xED ==> y <= 0x9F
    ensures Utf8Step([x, y, z] + rest) == (Code3(x, y, z) as char, 3)
  {
    var b := [x, y, z] + rest;
    assert b[0] == x && b[1] == y && b[2] == z;
  }

  lemma FourByteStep(x: byte, y: byte, z: byte, w: byte, rest: seq<byte>)
    requires 0xF0 <= x <= 0xF4 && 0x80 <= y <= 0xBF && 0x80 <= z <= 0xBF && 0x80 <= w <= 0xBF
    requires x == 0xF0 ==> 0x90 <= y
    requires x == 0xF4 ==> y <= 0x8F
    ensures Utf8Step([x, y, z, w] + rest) == (Code4(x, y, z, w) as char, 4)
  {
    var b := [x, y, z, w] + rest;
    assert b[0] == x && b[1] == y && b[2] == z && b[3] == w;
  }

  lemma {:induction false} Utf8RoundTrip(s: string)
    ensures Utf8Decode(Utf8Encode(s)) == s
  {
    if s == "" {
    } else {
      Utf8StepUndoesChar(s[0], Utf8Encode(s[1..]));
      Utf8RoundTrip(s[1..]);
      assert Utf8Encode(s)[|Utf8Char(s[0])|..] == Utf8Encode(s[1..]);
    }
  }

  // ----- text through base64url -----

  function EncodeText(s: string): string {
    Base64Encode(Utf8Encode(s))
  }

  function DecodeText(s: string): string {
    Utf8Decode(Base64Decode(s))
  }

  lemma TextRoundTrip(s: string)
    ensures DecodeText(EncodeText(s)) == s
    ensures '.' !in EncodeText(s)
  {
    Base64RoundTrip(Utf8Encode(s));
    Base64Alphabet(Utf8Encode(s));
    Utf8RoundTrip(s);
  }
}
