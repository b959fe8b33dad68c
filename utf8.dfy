/** UTF-8 as defined by RFC 3629: the encoding every string crossing the
    native boundary uses. Dafny's `char` is a Unicode scalar value, so every
    string can be encoded; decoding substitutes one U+FFFD for each maximal
    subpart of an ill-formed sequence, as Unicode's best practice for U+FFFD
    substitution says. */
module Utf8 {
  import opened Common

  const Replacement: char := '\U{FFFD}'

  predicate IsContinuation(b: byte)
  {
    0x80 <= b < 0xC0
  }

  /** The one to four bytes of one scalar value (RFC 3629, section 3). */
  function EncodeChar(c: char): (bs: seq<byte>)
    ensures 1 <= |bs| <= 4
    ensures (|bs| == 1) == (c as int < 0x80)
  {
    var cp := c as int;
    if cp < 0x80 then [cp]
    else if cp < 0x800 then [0xC0 + cp / 64, 0x80 + cp % 64]
    else if cp < 0x10000 then [0xE0 + cp / 4096, 0x80 + (cp / 64) % 64, 0x80 + cp % 64]
    else [0xF0 + cp / 262144, 0x80 + (cp / 4096) % 64, 0x80 + (cp / 64) % 64, 0x80 + cp % 64]
  }

  function Encode(s: string): (bs: seq<byte>)
    ensures |s| <= |bs| <= 4 * |s|
  {
    if s == [] then [] else EncodeChar(s[0]) + Encode(s[1..])
  }

  /** Number of bytes of `s` in UTF-8 (Rust's `str::len`). */
  function ByteLength(s: string): (n: nat)
    ensures |s| <= n <= 4 * |s|
  {
    |Encode(s)|
  }

  /** A string takes one byte per character exactly when it is ASCII. */
  lemma {:induction false} ByteLengthAscii(s: string)
    ensures ByteLength(s) == |s| <==> forall i :: 0 <= i < |s| ==> s[i] as int < 0x80
  {
    if s != [] {
      ByteLengthAscii(s[1..]);
      assert forall i :: 1 <= i < |s| ==> s[i] == s[1..][i - 1];
    }
  }

  /** The length of the sequence a lead byte starts, or 0 for a byte that
      starts none (a continuation byte, C0, C1 or F5 to FF). */
  function SequenceLength(b0: byte): nat
  {
    if b0 < 0x80 then 1
    else if 0xC2 <= b0 < 0xE0 then 2
    else if 0xE0 <= b0 < 0xF0 then 3
    else if 0xF0 <= b0 < 0xF5 then 4
    else 0
  }

  /** The bytes that may follow a multi-byte lead (RFC 3629, section 4):
      the narrower ranges after E0, ED, F0 and F4 rule out overlong forms,
      surrogates and values beyond U+10FFFF. */
  predicate SecondByteFits(b0: byte, b1: byte)
  {
    if b0 == 0xE0 then 0xA0 <= b1 < 0xC0
    else if b0 == 0xED then 0x80 <= b1 < 0xA0
    else if b0 == 0xF0 then 0x90 <= b1 < 0xC0
    else if b0 == 0xF4 then 0x80 <= b1 < 0x90
    else IsContinuation(b1)
  }

  /** The first `k` bytes of `bs` could begin a well-formed sequence: a
      valid lead byte, a second byte in its range, and continuation bytes
      after that, no more than the lead announces. */
  predicate Viable(bs: seq<byte>, k: nat)
  {
    1 <= k <= |bs| && k <= SequenceLength(bs[0])
    && (k >= 2 ==> SecondByteFits(bs[0], bs[1]))
    && (forall i :: 2 <= i < k ==> IsContinuation(bs[i]))
  }

  /** Decode the sequence at the front of `bs`: the character and the number
      of bytes it used. A malformed sequence yields one U+FFFD for its
      maximal subpart: the longest prefix that could still begin a
      well-formed sequence, or its first byte when there is none. */
  function DecodeOne(bs: seq<byte>): (r: (char, nat))
    requires bs != []
    ensures 1 <= r.1 <= |bs|
    ensures r.1 == 1 || r.1 <= SequenceLength(bs[0])
    ensures r.1 != SequenceLength(bs[0]) ==> r.0 == Replacement
    ensures SequenceLength(bs[0]) == 0 ==> r.1 == 1
    ensures SequenceLength(bs[0]) > 0 ==> Viable(bs, r.1)
    ensures r.1 < SequenceLength(bs[0]) ==> !Viable(bs, r.1 + 1)
  {
    var b0 := bs[0];
    var n := SequenceLength(b0);
    if b0 < 0x80 then (b0 as char, 1)
    else if n == 0 || |bs| < 2 || !SecondByteFits(b0, bs[1]) then (Replacement, 1)
    else if n == 2 then (((b0 as int - 0xC0) * 64 + (bs[1] as int - 0x80)) as char, 2)
    else if |bs| < 3 || !IsContinuation(bs[2]) then (Replacement, 2)
    else if n == 3 then
      ((((b0 as int - 0xE0) * 4096 + (bs[1] as int - 0x80) * 64 + (bs[2] as int - 0x80))) as char, 3)
    else if |bs| < 4 || !IsContinuation(bs[3]) then (Replacement, 3)
    else
      (((b0 as int - 0xF0) * 262144 + (bs[1] as int - 0x80) * 4096 + (bs[2] as int - 0x80) * 64
        + (bs[3] as int - 0x80)) as char, 4)
  }

  /** Splitting `x * 64 + y` back into its two parts. */
  lemma SplitDigit(x: int, y: int)
    requires 0 <= y < 64
    ensures (x * 64 + y) / 64 == x && (x * 64 + y) % 64 == y
  {
  }

  /** A whole sequence decodes to the character whose encoding it is. */
  lemma DecodeOneWellFormed(bs: seq<byte>)
    requires bs != [] && DecodeOne(bs).1 == SequenceLength(bs[0])
    ensures EncodeChar(DecodeOne(bs).0) == bs[..DecodeOne(bs).1]
  {
    var n := DecodeOne(bs).1;
    if n == 2 {
      EncodeTwoBytes(bs[0], bs[1]);
      assert bs[..2] == [bs[0], bs[1]];
    } else if n == 3 {
      EncodeThreeBytes(bs[0], bs[1], bs[2]);
      assert bs[..3] == [bs[0], bs[1], bs[2]];
    } else if n == 4 {
      EncodeFourBytes(bs[0], bs[1], bs[2], bs[3]);
      assert bs[..4] == [bs[0], bs[1], bs[2], bs[3]];
    }
  }

  lemma EncodeTwoBytes(b0: byte, b1: byte)
    requires 0xC2 <= b0 < 0xE0 && IsContinuation(b1)
    ensures EncodeChar(((b0 as int - 0xC0) * 64 + (b1 as int - 0x80)) as char) == [b0, b1]
  {
    SplitDigit(b0 as int - 0xC0, b1 as int - 0x80);
  }

  lemma EncodeThreeBytes(b0: byte, b1: byte, b2: byte)
    requires 0xE0 <= b0 < 0xF0 && SecondByteFits(b0, b1) && IsContinuation(b2)
    ensures EncodeChar(((b0 as int - 0xE0) * 4096 + (b1 as int - 0x80) * 64 + (b2 as int - 0x80)) as char)
            == [b0, b1, b2]
  {
    var hi := (b0 as int - 0xE0) * 64 + (b1 as int - 0x80);
    var cp := hi * 64 + (b2 as int - 0x80);
    assert cp == (b0 as int - 0xE0) * 4096 + (b1 as int - 0x80) * 64 + (b2 as int - 0x80);
    SplitDigit(hi, b2 as int - 0x80);
    SplitDigit(b0 as int - 0xE0, b1 as int - 0x80);
    assert cp / 4096 == hi / 64;
  }

  lemma EncodeFourBytes(b0: byte, b1: byte, b2: byte, b3: byte)
    requires 0xF0 <= b0 < 0xF5 && SecondByteFits(b0, b1) && IsContinuation(b2) && IsContinuation(b3)
    ensures EncodeChar(((b0 as int - 0xF0) * 262144 + (b1 as int - 0x80) * 4096 + (b2 as int - 0x80) * 64
                        + (b3 as int - 0x80)) as char) == [b0, b1, b2, b3]
  {
    var top := (b0 as int - 0xF0) * 64 + (b1 as int - 0x80);
    var hi := top * 64 + (b2 as int - 0x80);
    var cp := hi * 64 + (b3 as int - 0x80);
    assert cp == (b0 as int - 0xF0) * 262144 + (b1 as int - 0x80) * 4096 + (b2 as int - 0x80) * 64
                 + (b3 as int - 0x80);
    SplitDigit(hi, b3 as int - 0x80);
    SplitDigit(top, b2 as int - 0x80);
    SplitDigit(b0 as int - 0xF0, b1 as int - 0x80);
    assert cp / 4096 == hi / 64;
    assert cp / 262144 == top / 64;
  }

  /** Decoding yields at most one character per byte, and none only for
      no bytes. */
  function Decode(bs: seq<byte>): (s: seq<char>)
    ensures |s| <= |bs|
    ensures s == [] <==> bs == []
    decreases |bs|
  {
    if bs == [] then []
    else
      var (c, n) := DecodeOne(bs);
      [c] + Decode(bs[n..])
  }

  lemma SplitTwo(cp: int)
    requires 0 <= cp
    ensures (cp / 64) * 64 + cp % 64 == cp
  {
  }

  lemma SplitThree(cp: int)
    requires 0 <= cp
    ensures (cp / 4096) * 4096 + ((cp / 64) % 64) * 64 + cp % 64 == cp
  {
    var q := cp / 64;
    assert q / 64 == cp / 4096;
    assert (q / 64) * 64 + q % 64 == q;
  }

  lemma SplitFour(cp: int)
    requires 0 <= cp
    ensures (cp / 262144) * 262144 + ((cp / 4096) % 64) * 4096 + ((cp / 64) % 64) * 64 + cp % 64 == cp
  {
    var q := cp / 64;
    var r := q / 64;
    assert r == cp / 4096;
    assert r / 64 == cp / 262144;
    assert (r / 64) * 64 + r % 64 == r;
    SplitThree(cp);
  }

  /** The decoder reads back exactly the character the encoder wrote, and
      consumes exactly its bytes, whatever follows. */
  lemma DecodeOneEncodeChar(c: char, rest: seq<byte>)
    ensures DecodeOne(EncodeChar(c) + rest) == (c, |EncodeChar(c)|)
  {
    var cp := c as int;
    if cp < 0x80 {
    } else if cp < 0x800 {
      DecodeTwoBytes(c, rest);
    } else if cp < 0x10000 {
      DecodeThreeBytes(c, rest);
    } else {
      DecodeFourBytes(c, rest);
    }
  }

  lemma DecodeTwoBytes(c: char, rest: seq<byte>)
    requires 0x80 <= c as int < 0x800
    ensures DecodeOne(EncodeChar(c) + rest) == (c, 2)
  {
    var cp := c as int;
    var bs := EncodeChar(c) + rest;
    SplitTwo(cp);
    assert bs[0] == 0xC0 + cp / 64 && bs[1] == 0x80 + cp % 64;
  }

  lemma DecodeThreeBytes(c: char, rest: seq<byte>)
    requires 0x800 <= c as int < 0x10000
    ensures DecodeOne(EncodeChar(c) + rest) == (c, 3)
  {
    var cp := c as int;
    var bs := EncodeChar(c) + rest;
    SplitThree(cp);
    assert bs[0] == 0xE0 + cp / 4096 && bs[1] == 0x80 + (cp / 64) % 64 && bs[2] == 0x80 + cp % 64;
  }

  lemma DecodeFourBytes(c: char, rest: seq<byte>)
    requires 0x10000 <= c as int
    ensures DecodeOne(EncodeChar(c) + rest) == (c, 4)
  {
    var cp := c as int;
    var bs := EncodeChar(c) + rest;
    SplitFour(cp);
    assert bs[0] == 0xF0 + cp / 262144 && bs[1] == 0x80 + (cp / 4096) % 64;
    assert bs[2] == 0x80 + (cp / 64) % 64 && bs[3] == 0x80 + cp % 64;
  }

  /** Round trip: decoding the UTF-8 encoding of a string gives the string. */
  lemma {:induction false} DecodeEncode(s: string)
    ensures Decode(Encode(s)) == s
  {
    if s != [] {
      var e := EncodeChar(s[0]);
      DecodeOneEncodeChar(s[0], Encode(s[1..]));
      assert (e + Encode(s[1..]))[|e|..] == Encode(s[1..]);
      DecodeEncode(s[1..]);
    }
  }

  /** Only U+0000 encodes to a zero byte: every byte of a multi-byte
      sequence is at least 0x80. */
  lemma EncodeCharZero(c: char)
    ensures 0 in EncodeChar(c) <==> c == '\0'
  {
  }

  /** A string without U+0000 has no zero byte in its encoding, so a NUL
      written after it is the first zero. */
  lemma {:induction false} EncodeNoZero(s: string)
    requires '\0' !in s
    ensures 0 !in Encode(s)
  {
    if s != [] {
      EncodeCharZero(s[0]);
      EncodeNoZero(s[1..]);
    }
  }

  /** The empty string is the only one with an empty encoding. */
  lemma EncodeEmpty(s: string)
    ensures Encode(s) == [] <==> s == []
  {
  }
}
