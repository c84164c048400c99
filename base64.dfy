/** Base64 as in section 4 of RFC 4648 (alphabet `A-Z a-z 0-9 + /`, pad
    `=`), with decoding as Python's `b64decode` does it without validation
    on an input made of data characters followed by pad characters: full
    quads give three bytes each; a final group of two or three characters
    gives one or two bytes and needs at least two or one pads; a final
    group of one character is an error. */
module Base64 {
  import opened Wrappers
  import opened Text

  type Byte = x: int | 0 <= x < 256
  type Sextet = x: int | 0 <= x < 64

  predicate IsBase64Char(c: char) {
    IsAsciiUpper(c) || IsAsciiLower(c) || IsAsciiDigit(c) || c == '+' || c == '/'
  }

  predicate AllBase64(s: string) {
    forall i :: 0 <= i < |s| ==> IsBase64Char(s[i])
  }

  function SextetOf(c: char): Sextet
    requires IsBase64Char(c)
  {
    if IsAsciiUpper(c) then (c as int) - ('A' as int)
    else if IsAsciiLower(c) then (c as int) - ('a' as int) + 26
    else if IsAsciiDigit(c) then (c as int) - ('0' as int) + 52
    else if c == '+' then 62
    else 63
  }

  function CharOf(v: Sextet): (c: char)
    ensures IsBase64Char(c) && SextetOf(c) == v
  {
    if v < 26 then (('A' as int) + v) as char
    else if v < 52 then (('a' as int) + v - 26) as char
    else if v < 62 then (('0' as int) + v - 52) as char
    else if v == 62 then '+'
    else '/'
  }

  /** The binascii.Error raised for a malformed input. */
  datatype DecodeError =
    | ExcessDataCharacter  // "number of data characters cannot be 1 more than a multiple of 4"
    | IncorrectPadding

  /** The three bytes of one full quad of sextets. */
  function QuadBytes(v0: Sextet, v1: Sextet, v2: Sextet, v3: Sextet): (r: seq<Byte>)
    ensures |r| == 3
  {
    [v0 * 4 + v1 / 16, (v1 % 16) * 16 + v2 / 4, (v2 % 4) * 64 + v3]
  }

  /** The bytes of the data characters, two to four of them in each group.
      A lone final character gives none; `b64decode` refuses that input
      before decoding (see B64Decode). */
  function DecodeData(s: string): (r: seq<Byte>)
    requires AllBase64(s)
    decreases |s|
  {
    if |s| < 2 then []
    else if |s| == 2 then QuadBytes(SextetOf(s[0]), SextetOf(s[1]), 0, 0)[..1]
    else if |s| == 3 then QuadBytes(SextetOf(s[0]), SextetOf(s[1]), SextetOf(s[2]), 0)[..2]
    else QuadBytes(SextetOf(s[0]), SextetOf(s[1]), SextetOf(s[2]), SextetOf(s[3])) + DecodeData(s[4..])
  }

  /** Whether `b64decode(data + "=" * pads)` succeeds for `n` data characters. */
  predicate Decodable(n: nat, pads: nat) {
    !(n % 4 == 1 || (n % 4 == 2 && pads < 2) || (n % 4 == 3 && pads < 1))
  }

  /** `b64decode(data + "=" * pads)` */
  function B64Decode(data: string, pads: nat): (r: Result<seq<Byte>, DecodeError>)
    requires AllBase64(data)
    ensures r.Err? <==> |data| % 4 == 1 || (|data| % 4 == 2 && pads < 2) || (|data| % 4 == 3 && pads < 1)
    ensures r.Ok? <==> Decodable(|data|, pads)
    ensures r.Ok? ==> r.value == DecodeData(data)
  {
    var rest := |data| % 4;
    if rest == 1 then Err(ExcessDataCharacter)
    else if (rest == 2 && pads < 2) || (rest == 3 && pads < 1) then Err(IncorrectPadding)
    else Ok(DecodeData(data))
  }

  /** The four characters that encode three bytes. */
  function QuadChars(b0: Byte, b1: Byte, b2: Byte): (s: string)
    ensures |s| == 4 && AllBase64(s)
  {
    [CharOf(b0 / 4), CharOf((b0 % 4) * 16 + b1 / 16), CharOf((b1 % 16) * 4 + b2 / 64), CharOf(b2 % 64)]
  }

  /** Standard encoding without the pad characters; a final group of one or
      two bytes is encoded as if zero-filled and cut to two or three characters. */
  function EncodeData(b: seq<Byte>): (s: string)
    ensures AllBase64(s)
    ensures |b| > 0 ==> |s| > 0
  {
    if |b| == 0 then []
    else if |b| == 1 then QuadChars(b[0], 0, 0)[..2]
    else if |b| == 2 then QuadChars(b[0], b[1], 0)[..3]
    else QuadChars(b[0], b[1], b[2]) + EncodeData(b[3..])
  }

  /** How many `=` the standard encoding appends. */
  function PadCount(n: nat): (k: nat)
    ensures k <= 2
  {
    if n % 3 == 1 then 2 else if n % 3 == 2 then 1 else 0
  }

  function PadString(k: nat): (s: string)
    ensures |s| == k && forall i :: 0 <= i < k ==> s[i] == '='
  {
    if k == 0 then "" else PadString(k - 1) + "="
  }

  /** `b64encode(b)` */
  function Encode(b: seq<Byte>): (s: string) {
    EncodeData(b) + PadString(PadCount(|b|))
  }

  /** The bit arithmetic of one quad: regrouping three bytes into four
      sextets and back is the identity. */
  lemma SextetArithmetic(b0: Byte, b1: Byte, b2: Byte)
    ensures b0 / 4 * 4 + ((b0 % 4) * 16 + b1 / 16) / 16 == b0
    ensures (((b0 % 4) * 16 + b1 / 16) % 16) * 16 + ((b1 % 16) * 4 + b2 / 64) / 4 == b1
    ensures (((b1 % 16) * 4 + b2 / 64) % 4) * 64 + b2 % 64 == b2
  {
  }

  /** One quad: decoding the four characters gives the three bytes back. */
  lemma QuadRoundTrip(b0: Byte, b1: Byte, b2: Byte)
    ensures var q := QuadChars(b0, b1, b2);
      QuadBytes(SextetOf(q[0]), SextetOf(q[1]), SextetOf(q[2]), SextetOf(q[3])) == [b0, b1, b2]
  {
    var v0: Sextet, v1: Sextet, v2: Sextet, v3: Sextet :=
      b0 / 4, (b0 % 4) * 16 + b1 / 16, (b1 % 16) * 4 + b2 / 64, b2 % 64;
    var q := QuadChars(b0, b1, b2);
    assert SextetOf(q[0]) == v0 && SextetOf(q[1]) == v1 && SextetOf(q[2]) == v2 && SextetOf(q[3]) == v3;
    SextetArithmetic(b0, b1, b2);
  }

  /** Decoding a full quad and what follows it. */
  lemma DecodeQuadThen(q: string, rest: string)
    requires |q| == 4 && AllBase64(q) && AllBase64(rest)
    ensures AllBase64(q + rest)
    ensures DecodeData(q + rest)
      == QuadBytes(SextetOf(q[0]), SextetOf(q[1]), SextetOf(q[2]), SextetOf(q[3])) + DecodeData(rest)
  {
    var s := q + rest;
    assert s[0] == q[0] && s[1] == q[1] && s[2] == q[2] && s[3] == q[3];
    assert s[4..] == rest;
  }

  /** Decoding the two or three characters of a final group. */
  lemma DecodeTail(b0: Byte, b1: Byte, n: nat)
    requires n == 2 || n == 3
    ensures AllBase64(QuadChars(b0, b1, 0)[..n])
    ensures DecodeData(QuadChars(b0, b1, 0)[..n]) == [b0, b1][..n - 1]
  {
    QuadRoundTrip(b0, b1, 0);
  }

  /** Decoding undoes encoding. */
  lemma {:induction false} DecodeEncodeData(b: seq<Byte>)
    ensures DecodeData(EncodeData(b)) == b
  {
    if |b| >= 3 {
      var q, rest := QuadChars(b[0], b[1], b[2]), EncodeData(b[3..]);
      assert EncodeData(b) == q + rest;
      DecodeQuadThen(q, rest);
      QuadRoundTrip(b[0], b[1], b[2]);
      DecodeEncodeData(b[3..]);
      assert b == [b[0], b[1], b[2]] + b[3..];
    } else if |b| == 2 {
      DecodeTail(b[0], b[1], 3);
      assert [b[0], b[1]][..2] == b;
    } else if |b| == 1 {
      DecodeTail(b[0], 0, 2);
      assert [b[0], 0][..1] == b;
    }
  }

  /** Four characters per three bytes, and two or three for a final one or two. */
  lemma {:induction false} EncodeDataLength(b: seq<Byte>)
    ensures |EncodeData(b)| == 4 * (|b| / 3) + (if |b| % 3 == 0 then 0 else |b| % 3 + 1)
  {
    if |b| >= 3 {
      EncodeDataLength(b[3..]);
    }
  }

  /** Three bytes per full quad, and one or two for a final group of two or three. */
  lemma {:induction false} DecodeDataLength(s: string)
    requires AllBase64(s) && |s| % 4 != 1
    ensures |DecodeData(s)| == 3 * (|s| / 4) + (if |s| % 4 == 0 then 0 else |s| % 4 - 1)
  {
    if |s| >= 4 {
      DecodeDataLength(s[4..]);
    }
  }

  /** The standard encoding always carries the pads its data length needs. */
  lemma {:induction false} EncodingIsDecodable(b: seq<Byte>)
    ensures Decodable(|EncodeData(b)|, PadCount(|b|))
  {
    if |b| >= 3 {
      var n, m := |EncodeData(b[3..])|, |b| - 3;
      EncodingIsDecodable(b[3..]);
      assert |EncodeData(b)| == n + 4;
      assert (n + 4) % 4 == n % 4 && (m + 3) % 3 == m % 3;
    } else if |b| == 2 {
      assert |EncodeData(b)| == 3;
    } else if |b| == 1 {
      assert |EncodeData(b)| == 2;
    }
  }

  /** `b64decode(b64encode(b)) == b` */
  lemma B64DecodeEncode(b: seq<Byte>)
    ensures B64Decode(EncodeData(b), PadCount(|b|)) == Ok(b)
  {
    EncodingIsDecodable(b);
    DecodeEncodeData(b);
  }
}
