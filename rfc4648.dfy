/**
 * The two byte-to-text encodings the identifier generators use, as Node's
 * `Buffer.toString` produces them: base64url without padding (section 5 of
 * RFC 4648) and lower-case base16 (section 8 of RFC 4648), each with a decoder
 * that inverts it.
 */
module Rfc4648 {
  import opened Wrappers

  /** A byte as Node's `crypto.randomBytes` delivers it. */
  type byte = x: int | 0 <= x < 256

  // ---------------------------------------------------------------- base64url

  /** The 64 characters of the "URL and Filename safe" alphabet: `[A-Za-z0-9_-]`. */
  predicate IsBase64UrlChar(c: char) {
    ('A' <= c <= 'Z') || ('a' <= c <= 'z') || ('0' <= c <= '9') || c == '-' || c == '_'
  }

  /** The character for a 6-bit value, in the order of the alphabet table. */
  function Base64UrlDigit(v: nat): (c: char)
    requires v < 64
    ensures IsBase64UrlChar(c)
  {
    if v < 26 then (65 + v) as char
    else if v < 52 then (97 + v - 26) as char
    else if v < 62 then (48 + v - 52) as char
    else if v == 62 then '-'
    else '_'
  }

  /** The 6-bit value of an alphabet character; `None` for any other character. */
  function Base64UrlValue(c: char): (r: Option<nat>)
    ensures r.Some? <==> IsBase64UrlChar(c)
    ensures r.Some? ==> r.value < 64 && Base64UrlDigit(r.value) == c
  {
    if 'A' <= c <= 'Z' then Some(c as int - 65)
    else if 'a' <= c <= 'z' then Some(c as int - 97 + 26)
    else if '0' <= c <= '9' then Some(c as int - 48 + 52)
    else if c == '-' then Some(62)
    else if c == '_' then Some(63)
    else None
  }

  lemma DigitValue(v: nat)
    requires v < 64
    ensures Base64UrlValue(Base64UrlDigit(v)) == Some(v)
  {
  }

  /** The four characters of a complete group of three bytes. */
  function EncodeTriple(b0: byte, b1: byte, b2: byte): (s: string)
    ensures |s| == 4 && forall i :: 0 <= i < 4 ==> IsBase64UrlChar(s[i])
  {
    [Base64UrlDigit(b0 / 4), Base64UrlDigit(b0 % 4 * 16 + b1 / 16),
     Base64UrlDigit(b1 % 16 * 4 + b2 / 64), Base64UrlDigit(b2 % 64)]
  }

  /** The three characters of a final pair of bytes (the last one carries two zero bits). */
  function EncodePair(b0: byte, b1: byte): (s: string)
    ensures |s| == 3 && forall i :: 0 <= i < 3 ==> IsBase64UrlChar(s[i])
  {
    [Base64UrlDigit(b0 / 4), Base64UrlDigit(b0 % 4 * 16 + b1 / 16), Base64UrlDigit(b1 % 16 * 4)]
  }

  /** The two characters of a final single byte (the last one carries four zero bits). */
  function EncodeSingle(b0: byte): (s: string)
    ensures |s| == 2 && forall i :: 0 <= i < 2 ==> IsBase64UrlChar(s[i])
  {
    [Base64UrlDigit(b0 / 4), Base64UrlDigit(b0 % 4 * 16)]
  }

  /**
   * Unpadded base64url: each group of three bytes becomes four characters; a
   * final single byte becomes two characters and a final pair three.
   */
  function Base64UrlEncode(b: seq<byte>): (s: string)
    decreases |b|
  {
    if |b| == 0 then ""
    else if |b| == 1 then EncodeSingle(b[0])
    else if |b| == 2 then EncodePair(b[0], b[1])
    else EncodeTriple(b[0], b[1], b[2]) + Base64UrlEncode(b[3..])
  }

  /** Decodes unpadded base64url; `None` for a stray character or a dangling single character. */
  function Base64UrlDecode(s: string): (r: Option<seq<byte>>)
    decreases |s|
  {
    if |s| == 0 then Some([])
    else if |s| == 1 then None
    else
      var v0 := Base64UrlValue(s[0]);
      var v1 := Base64UrlValue(s[1]);
      if v0.None? || v1.None? then None
      else
        var b0 := (v0.value * 4 + v1.value / 16) % 256;
        if |s| == 2 then Some([b0])
        else
          var v2 := Base64UrlValue(s[2]);
          if v2.None? then None
          else
            var b1 := (v1.value * 16 + v2.value / 4) % 256;
            if |s| == 3 then Some([b0, b1])
            else
              var v3 := Base64UrlValue(s[3]);
              if v3.None? then None
              else
                var b2 := (v2.value * 64 + v3.value) % 256;
                match Base64UrlDecode(s[4..])
                case None => None
                case Some(rest) => Some([b0, b1, b2] + rest)
  }

  /** n bytes encode to ceil(4n/3) characters. */
  lemma {:induction false} Base64UrlLength(b: seq<byte>)
    ensures |Base64UrlEncode(b)| == (4 * |b| + 2) / 3
    decreases |b|
  {
    if |b| >= 3 {
      Base64UrlLength(b[3..]);
    }
  }

  /** Every character of an encoding is drawn from the base64url alphabet. */
  lemma {:induction false} Base64UrlAlphabet(b: seq<byte>)
    ensures forall i :: 0 <= i < |Base64UrlEncode(b)| ==> IsBase64UrlChar(Base64UrlEncode(b)[i])
    decreases |b|
  {
    if |b| >= 3 {
      Base64UrlAlphabet(b[3..]);
    }
  }

  /** Joining the 6-bit values of a group gives its three bytes back. */
  lemma JoinTriple(b0: byte, b1: byte, b2: byte, v0: nat, v1: nat, v2: nat, v3: nat)
    requires v0 == b0 / 4 && v1 == b0 % 4 * 16 + b1 / 16 && v2 == b1 % 16 * 4 + b2 / 64 && v3 == b2 % 64
    ensures (v0 * 4 + v1 / 16) % 256 == b0
    ensures (v1 * 16 + v2 / 4) % 256 == b1
    ensures (v2 * 64 + v3) % 256 == b2
  {
    var r, l := b0 % 4, b1 % 16;
    assert v1 / 16 == r;
    assert v2 / 4 == l;
    assert v1 * 16 + l == r * 256 + b1;
    assert v2 * 64 + v3 == l * 256 + b2;
  }

  /** Joining the 6-bit values of a final pair gives its two bytes back. */
  lemma JoinPair(b0: byte, b1: byte, v0: nat, v1: nat, v2: nat)
    requires v0 == b0 / 4 && v1 == b0 % 4 * 16 + b1 / 16 && v2 == b1 % 16 * 4
    ensures (v0 * 4 + v1 / 16) % 256 == b0
    ensures (v1 * 16 + v2 / 4) % 256 == b1
  {
    var r, h, l := b0 % 4, b1 / 16, b1 % 16;
    assert v1 / 16 == r;
    assert v2 / 4 == l;
    assert v1 * 16 + l == r * 256 + b1;
  }

  /** Joining the 6-bit values of a final single byte gives it back. */
  lemma JoinSingle(b0: byte, v0: nat, v1: nat)
    requires v0 == b0 / 4 && v1 == b0 % 4 * 16
    ensures (v0 * 4 + v1 / 16) % 256 == b0
  {
    assert v1 / 16 == b0 % 4;
  }

  /** Decoding a string that starts with four valid characters: one group of three bytes, then the rest. */
  lemma DecodeGroup(s: string, v0: nat, v1: nat, v2: nat, v3: nat, rest: seq<byte>)
    requires |s| >= 4 && Base64UrlDecode(s[4..]) == Some(rest)
    requires Base64UrlValue(s[0]) == Some(v0) && Base64UrlValue(s[1]) == Some(v1)
    requires Base64UrlValue(s[2]) == Some(v2) && Base64UrlValue(s[3]) == Some(v3)
    ensures Base64UrlDecode(s) == Some([(v0 * 4 + v1 / 16) % 256, (v1 * 16 + v2 / 4) % 256, (v2 * 64 + v3) % 256] + rest)
  {
  }

  /** Decoding three valid characters gives two bytes. */
  lemma DecodePair(s: string, v0: nat, v1: nat, v2: nat)
    requires |s| == 3
    requires Base64UrlValue(s[0]) == Some(v0) && Base64UrlValue(s[1]) == Some(v1) && Base64UrlValue(s[2]) == Some(v2)
    ensures Base64UrlDecode(s) == Some([(v0 * 4 + v1 / 16) % 256, (v1 * 16 + v2 / 4) % 256])
  {
  }

  /** Decoding two valid characters gives one byte. */
  lemma DecodeSingle(s: string, v0: nat, v1: nat)
    requires |s| == 2
    requires Base64UrlValue(s[0]) == Some(v0) && Base64UrlValue(s[1]) == Some(v1)
    ensures Base64UrlDecode(s) == Some([(v0 * 4 + v1 / 16) % 256])
  {
  }

  /** The characters of a group decode to the group's 6-bit values. */
  lemma TripleDigits(b0: byte, b1: byte, b2: byte)
    ensures var g := EncodeTriple(b0, b1, b2);
            && Base64UrlValue(g[0]) == Some(b0 / 4)
            && Base64UrlValue(g[1]) == Some(b0 % 4 * 16 + b1 / 16)
            && Base64UrlValue(g[2]) == Some(b1 % 16 * 4 + b2 / 64)
            && Base64UrlValue(g[3]) == Some(b2 % 64)
  {
    DigitValue(b0 / 4);
    DigitValue(b0 % 4 * 16 + b1 / 16);
    DigitValue(b1 % 16 * 4 + b2 / 64);
    DigitValue(b2 % 64);
  }

  /** The round trip of one complete three-byte group followed by the rest. */
  lemma {:induction false} GroupRoundTrip(b: seq<byte>)
    requires |b| >= 3
    requires Base64UrlDecode(Base64UrlEncode(b[3..])) == Some(b[3..])
    ensures Base64UrlDecode(Base64UrlEncode(b)) == Some(b)
  {
    var v0, v1, v2, v3 := b[0] / 4, b[0] % 4 * 16 + b[1] / 16, b[1] % 16 * 4 + b[2] / 64, b[2] % 64;
    var g := EncodeTriple(b[0], b[1], b[2]);
    var s := g + Base64UrlEncode(b[3..]);
    TripleDigits(b[0], b[1], b[2]);
    assert s[0] == g[0] && s[1] == g[1] && s[2] == g[2] && s[3] == g[3];
    assert s[4..] == Base64UrlEncode(b[3..]);
    DecodeGroup(s, v0, v1, v2, v3, b[3..]);
    JoinTriple(b[0], b[1], b[2], v0, v1, v2, v3);
    assert b == [b[0], b[1], b[2]] + b[3..];
  }

  /** The round trip of a final pair of bytes. */
  lemma PairRoundTrip(b: seq<byte>)
    requires |b| == 2
    ensures Base64UrlDecode(Base64UrlEncode(b)) == Some(b)
  {
    var v0, v1, v2 := b[0] / 4, b[0] % 4 * 16 + b[1] / 16, b[1] % 16 * 4;
    DigitValue(v0);
    DigitValue(v1);
    DigitValue(v2);
    DecodePair(EncodePair(b[0], b[1]), v0, v1, v2);
    JoinPair(b[0], b[1], v0, v1, v2);
    assert [b[0], b[1]] == b;
  }

  /** The round trip of a final single byte. */
  lemma SingleRoundTrip(b: seq<byte>)
    requires |b| == 1
    ensures Base64UrlDecode(Base64UrlEncode(b)) == Some(b)
  {
    var v0, v1 := b[0] / 4, b[0] % 4 * 16;
    DigitValue(v0);
    DigitValue(v1);
    DecodeSingle(EncodeSingle(b[0]), v0, v1);
    JoinSingle(b[0], v0, v1);
    assert [b[0]] == b;
  }

  /** Decoding inverts encoding, so distinct byte strings give distinct encodings. */
  lemma {:induction false} Base64UrlRoundTrip(b: seq<byte>)
    ensures Base64UrlDecode(Base64UrlEncode(b)) == Some(b)
    decreases |b|
  {
    if |b| == 1 {
      SingleRoundTrip(b);
    } else if |b| == 2 {
      PairRoundTrip(b);
    } else if |b| >= 3 {
      Base64UrlRoundTrip(b[3..]);
      GroupRoundTrip(b);
    }
  }

  // ------------------------------------------------------------------- base16

  /** The lower-case hexadecimal digits `[0-9a-f]` that Node's `'hex'` encoding emits. */
  predicate IsLowerHexChar(c: char) {
    ('0' <= c <= '9') || ('a' <= c <= 'f')
  }

  function HexDigit(v: nat): (c: char)
    requires v < 16
    ensures IsLowerHexChar(c)
  {
    if v < 10 then (48 + v) as char else (97 + v - 10) as char
  }

  function HexValue(c: char): (r: Option<nat>)
    ensures r.Some? <==> IsLowerHexChar(c)
    ensures r.Some? ==> r.value < 16 && HexDigit(r.value) == c
  {
    if '0' <= c <= '9' then Some(c as int - 48)
    else if 'a' <= c <= 'f' then Some(c as int - 97 + 10)
    else None
  }

  /** Each byte becomes its high nibble's digit followed by its low nibble's digit. */
  function HexEncode(b: seq<byte>): (s: string)
    decreases |b|
  {
    if b == [] then "" else [HexDigit(b[0] / 16), HexDigit(b[0] % 16)] + HexEncode(b[1..])
  }

  function HexDecode(s: string): (r: Option<seq<byte>>)
    decreases |s|
  {
    if |s| == 0 then Some([])
    else if |s| == 1 then None
    else
      var hi := HexValue(s[0]);
      var lo := HexValue(s[1]);
      if hi.None? || lo.None? then None
      else
        match HexDecode(s[2..])
        case None => None
        case Some(rest) => Some([hi.value * 16 + lo.value] + rest)
  }

  /** n bytes encode to 2n characters. */
  lemma {:induction false} HexLength(b: seq<byte>)
    ensures |HexEncode(b)| == 2 * |b|
    decreases |b|
  {
    if b != [] {
      HexLength(b[1..]);
    }
  }

  /** Every character of a hex encoding is a lower-case hex digit. */
  lemma {:induction false} HexAlphabet(b: seq<byte>)
    ensures forall i :: 0 <= i < |HexEncode(b)| ==> IsLowerHexChar(HexEncode(b)[i])
    decreases |b|
  {
    if b != [] {
      HexAlphabet(b[1..]);
    }
  }

  /** Decoding inverts hex encoding. */
  lemma {:induction false} HexRoundTrip(b: seq<byte>)
    ensures HexDecode(HexEncode(b)) == Some(b)
    decreases |b|
  {
    if b != [] {
      var s := HexEncode(b);
      assert HexValue(s[0]) == Some(b[0] / 16);
      assert HexValue(s[1]) == Some(b[0] % 16);
      HexRoundTrip(b[1..]);
      assert s[2..] == HexEncode(b[1..]);
      assert b == [b[0]] + b[1..];
    }
  }
}
