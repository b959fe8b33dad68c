/** Base64 with the standard alphabet and `=` padding, as section 4 of
    RFC 4648 defines it, and its canonical decoding: the input is padded to
    a multiple of four characters, padding only ends it, and the bits the
    padding leaves over are zero (the `STANDARD` engine of the `base64`
    crate). */
module Base64 {
  import opened Common

  /** The character of a 6-bit value: `A`-`Z`, `a`-`z`, `0`-`9`, `+`, `/`. */
  function CharOf(v: nat): (c: char)
    requires v < 64
    ensures c != '='
  {
    if v < 26 then ('A' as int + v) as char
    else if v < 52 then ('a' as int + (v - 26)) as char
    else if v < 62 then ('0' as int + (v - 52)) as char
    else if v == 62 then '+'
    else '/'
  }

  /** The 6-bit value of an alphabet character; none for any other. */
  function ValueOf(c: char): (r: Option<nat>)
    ensures r.Some? ==> r.value < 64 && CharOf(r.value) == c
  {
    if 'A' <= c <= 'Z' then Some(c as int - 'A' as int)
    else if 'a' <= c <= 'z' then Some(c as int - 'a' as int + 26)
    else if '0' <= c <= '9' then Some(c as int - '0' as int + 52)
    else if c == '+' then Some(62)
    else if c == '/' then Some(63)
    else None
  }

  /** Every 6-bit value reads back from its character. */
  lemma ValueOfCharOf(v: nat)
    requires v < 64
    ensures ValueOf(CharOf(v)) == Some(v)
  {
  }

  /** A character of the standard alphabet. */
  predicate IsAlphabetChar(c: char)
  {
    'A' <= c <= 'Z' || 'a' <= c <= 'z' || '0' <= c <= '9' || c == '+' || c == '/'
  }

  /** A character of the standard alphabet or the pad. */
  predicate IsBase64Char(c: char)
  {
    IsAlphabetChar(c) || c == '='
  }

  /** The four characters of three whole bytes. */
  function EncodeGroup(b0: byte, b1: byte, b2: byte): string
  {
    [CharOf(b0 / 4), CharOf(b0 % 4 * 16 + b1 / 16), CharOf(b1 % 16 * 4 + b2 / 64), CharOf(b2 % 64)]
  }

  /** `STANDARD.encode`: groups of three bytes become four characters; a
      last group of one or two bytes is padded with `=`. */
  function Encode(d: seq<byte>): (s: string)
    ensures |s| == 4 * ((|d| + 2) / 3)
    decreases |d|
  {
    if |d| == 0 then []
    else if |d| == 1 then
      [CharOf(d[0] / 4), CharOf(d[0] % 4 * 16), '=', '=']
    else if |d| == 2 then
      [CharOf(d[0] / 4), CharOf(d[0] % 4 * 16 + d[1] / 16), CharOf(d[1] % 16 * 4), '=']
    else
      EncodeGroup(d[0], d[1], d[2]) + Encode(d[3..])
  }

  /** Every 6-bit value has an alphabet character. */
  lemma CharOfAlphabet(v: nat)
    requires v < 64
    ensures IsAlphabetChar(CharOf(v))
  {
  }

  /** A long input encodes as its first group followed by the rest. */
  lemma EncodeStep(d: seq<byte>)
    requires |d| >= 3
    ensures Encode(d) == EncodeGroup(d[0], d[1], d[2]) + Encode(d[3..])
  {
  }

  /** A whole group is four alphabet characters. */
  lemma GroupAlphabet(b0: byte, b1: byte, b2: byte)
    ensures forall i :: 0 <= i < 4 ==> IsAlphabetChar(EncodeGroup(b0, b1, b2)[i])
  {
    CharOfAlphabet(b0 / 4);
    CharOfAlphabet(b0 % 4 * 16 + b1 / 16);
    CharOfAlphabet(b1 % 16 * 4 + b2 / 64);
    CharOfAlphabet(b2 % 64);
  }

  /** A padded last group: alphabet characters, then pads. */
  lemma ShortAlphabet(d: seq<byte>)
    requires 1 <= |d| <= 2
    ensures |Encode(d)| == 4
    ensures forall i :: 0 <= i < 4 ==> IsBase64Char(Encode(d)[i])
    ensures forall i :: 0 <= i < 2 ==> IsAlphabetChar(Encode(d)[i])
  {
    CharOfAlphabet(d[0] / 4);
    if |d| == 1 {
      CharOfAlphabet(d[0] % 4 * 16);
    } else {
      CharOfAlphabet(d[0] % 4 * 16 + d[1] / 16);
      CharOfAlphabet(d[1] % 16 * 4);
    }
  }

  /** An encoding holds only alphabet characters and pads, and pads only
      in its last two places. */
  lemma {:induction false} EncodeAlphabet(d: seq<byte>)
    ensures forall i :: 0 <= i < |Encode(d)| ==> IsBase64Char(Encode(d)[i])
    ensures forall i :: 0 <= i < |Encode(d)| - 2 ==> IsAlphabetChar(Encode(d)[i])
    decreases |d|
  {
    if 1 <= |d| <= 2 {
      ShortAlphabet(d);
    } else if |d| >= 3 {
      EncodeAlphabet(d[3..]);
      EncodeStep(d);
      var g, t := EncodeGroup(d[0], d[1], d[2]), Encode(d[3..]);
      GroupAlphabet(d[0], d[1], d[2]);
      forall i | 0 <= i < |g + t|
        ensures IsBase64Char((g + t)[i]) && (i < |g + t| - 2 ==> IsAlphabetChar((g + t)[i]))
      {
        if i >= 4 {
          assert (g + t)[i] == t[i - 4];
        }
      }
    }
  }

  /** The three bytes of four alphabet characters. */
  function DecodeGroup(q: string): (r: Option<seq<byte>>)
    requires |q| == 4
    ensures r.Some? <==> forall i :: 0 <= i < 4 ==> IsAlphabetChar(q[i])
    ensures r.Some? ==> |r.value| == 3
  {
    var v0, v1, v2, v3 := ValueOf(q[0]), ValueOf(q[1]), ValueOf(q[2]), ValueOf(q[3]);
    if v0.None? || v1.None? || v2.None? || v3.None? then None
    else
      Some([v0.value * 4 + v1.value / 16, v1.value % 16 * 16 + v2.value / 4, v2.value % 4 * 64 + v3.value])
  }

  /** The last quadruple: it may end in one or two pads, and the bits the
      pads leave over must be zero. */
  function DecodeLast(q: string): (r: Option<seq<byte>>)
    requires |q| == 4
    ensures q[0] == '=' || q[1] == '=' || (q[2] == '=' && q[3] != '=') ==> r.None?
    ensures r.Some? ==> |r.value| == if q[3] != '=' then 3 else if q[2] == '=' then 1 else 2
  {
    if q[3] != '=' then DecodeGroup(q)
    else
      var v0, v1 := ValueOf(q[0]), ValueOf(q[1]);
      if v0.None? || v1.None? then None
      else if q[2] == '=' then
        if v1.value % 16 != 0 then None
        else Some([v0.value * 4 + v1.value / 16])
      else
        var v2 := ValueOf(q[2]);
        if v2.None? || v2.value % 4 != 0 then None
        else Some([v0.value * 4 + v1.value / 16, v1.value % 16 * 16 + v2.value / 4])
  }

  /** `STANDARD.decode`: the bytes of a canonical encoding, none for
      anything else. */
  function Decode(s: string): (r: Option<seq<byte>>)
    ensures |s| % 4 != 0 ==> r.None?
    decreases |s|
  {
    if |s| == 0 then Some([])
    else if |s| < 4 then None
    else if |s| == 4 then DecodeLast(s)
    else
      match DecodeGroup(s[..4])
      case None => None
      case Some(g) =>
        match Decode(s[4..])
        case None => None
        case Some(rest) => Some(g + rest)
  }

  /** The bit arithmetic of one group: three bytes split into four 6-bit
      values and joined back. */
  lemma SplitBytes(b0: byte, b1: byte, b2: byte)
    ensures b0 / 4 * 4 + (b0 % 4 * 16 + b1 / 16) / 16 == b0
    ensures (b0 % 4 * 16 + b1 / 16) % 16 * 16 + (b1 % 16 * 4 + b2 / 64) / 4 == b1
    ensures (b1 % 16 * 4 + b2 / 64) % 4 * 64 + b2 % 64 == b2
  {
    assert (b0 % 4 * 16 + b1 / 16) / 16 == b0 % 4;
    assert (b0 % 4 * 16 + b1 / 16) % 16 == b1 / 16;
    assert (b1 % 16 * 4 + b2 / 64) / 4 == b1 % 16;
    assert (b1 % 16 * 4 + b2 / 64) % 4 == b2 / 64;
  }

  /** Four 6-bit values joined into three bytes and split again. */
  lemma JoinSextets(v0: nat, v1: nat, v2: nat, v3: nat)
    requires v0 < 64 && v1 < 64 && v2 < 64 && v3 < 64
    ensures 0 <= v0 * 4 + v1 / 16 < 256 && 0 <= v1 % 16 * 16 + v2 / 4 < 256 && 0 <= v2 % 4 * 64 + v3 < 256
    ensures (v0 * 4 + v1 / 16) / 4 == v0
    ensures (v0 * 4 + v1 / 16) % 4 * 16 + (v1 % 16 * 16 + v2 / 4) / 16 == v1
    ensures (v1 % 16 * 16 + v2 / 4) % 16 * 4 + (v2 % 4 * 64 + v3) / 64 == v2
    ensures (v2 % 4 * 64 + v3) % 64 == v3
  {
    assert (v0 * 4 + v1 / 16) % 4 == v1 / 16;
    assert (v1 % 16 * 16 + v2 / 4) / 16 == v1 % 16;
    assert (v1 % 16 * 16 + v2 / 4) % 16 == v2 / 4;
    assert (v2 % 4 * 64 + v3) / 64 == v2 % 4;
  }

  /** A whole group reads back. */
  lemma GroupRoundTrip(b0: byte, b1: byte, b2: byte)
    ensures DecodeGroup(EncodeGroup(b0, b1, b2)) == Some([b0, b1, b2])
  {
    ValueOfCharOf(b0 / 4);
    ValueOfCharOf(b0 % 4 * 16 + b1 / 16);
    ValueOfCharOf(b1 % 16 * 4 + b2 / 64);
    ValueOfCharOf(b2 % 64);
    SplitBytes(b0, b1, b2);
  }

  /** A last group of one byte reads back. */
  lemma OneByteRoundTrip(b0: byte)
    ensures Decode(Encode([b0])) == Some([b0])
  {
    ValueOfCharOf(b0 / 4);
    ValueOfCharOf(b0 % 4 * 16);
    SplitBytes(b0, 0, 0);
    assert (b0 % 4 * 16) % 16 == 0;
  }

  /** A last group of two bytes reads back. */
  lemma TwoBytesRoundTrip(b0: byte, b1: byte)
    ensures Decode(Encode([b0, b1])) == Some([b0, b1])
  {
    ValueOfCharOf(b0 / 4);
    ValueOfCharOf(b0 % 4 * 16 + b1 / 16);
    ValueOfCharOf(b1 % 16 * 4);
    SplitBytes(b0, b1, 0);
    assert (b1 % 16 * 4) % 4 == 0;
  }

  /** Decoding a whole group followed by more groups. */
  lemma DecodeStep(g: string, tail: string)
    requires |g| == 4 && |tail| > 0
    ensures Decode(g + tail) ==
      match DecodeGroup(g)
      case None => None
      case Some(b) => match Decode(tail) case None => None case Some(rest) => Some(b + rest)
  {
    assert (g + tail)[..4] == g && (g + tail)[4..] == tail;
  }

  /** A last group of one or two bytes reads back. */
  lemma ShortRoundTrip(d: seq<byte>)
    requires 1 <= |d| <= 2
    ensures Decode(Encode(d)) == Some(d)
  {
    if |d| == 1 {
      OneByteRoundTrip(d[0]);
      assert d == [d[0]];
    } else {
      TwoBytesRoundTrip(d[0], d[1]);
      assert d == [d[0], d[1]];
    }
  }

  /** Decoding undoes encoding. */
  lemma {:induction false} DecodeEncode(d: seq<byte>)
    ensures Decode(Encode(d)) == Some(d)
    decreases |d|
  {
    if |d| == 0 {
    } else if |d| < 3 {
      ShortRoundTrip(d);
    } else {
      DecodeEncode(d[3..]);
      DecodeEncodeStep(d);
    }
  }

  /** The step of `DecodeEncode`: the first group in front of a tail that
      reads back. */
  lemma DecodeEncodeStep(d: seq<byte>)
    requires |d| >= 3 && Decode(Encode(d[3..])) == Some(d[3..])
    ensures Decode(Encode(d)) == Some(d)
  {
    var rest := d[3..];
    var tail := Encode(rest);
    EncodeStep(d);
    GroupThenRest(d[0], d[1], d[2], tail, rest);
    FirstThree(d);
  }

  lemma FirstThree(d: seq<byte>)
    requires |d| >= 3
    ensures [d[0], d[1], d[2]] + d[3..] == d
  {
  }

  /** The step of `DecodeEncode`: a whole group in front of a tail that
      reads back. */
  lemma GroupThenRest(b0: byte, b1: byte, b2: byte, tail: string, rest: seq<byte>)
    requires Decode(tail) == Some(rest)
    ensures Decode(EncodeGroup(b0, b1, b2) + tail) == Some([b0, b1, b2] + rest)
  {
    var g := EncodeGroup(b0, b1, b2);
    GroupRoundTrip(b0, b1, b2);
    if tail == [] {
      assert g + tail == g;
      assert [b0, b1, b2] + rest == [b0, b1, b2];
    } else {
      DecodeStep(g, tail);
    }
  }

  /** A group that decodes is the encoding of its bytes. */
  lemma GroupCanonical(q: string)
    requires |q| == 4 && DecodeGroup(q).Some?
    ensures |DecodeGroup(q).value| == 3
    ensures EncodeGroup(DecodeGroup(q).value[0], DecodeGroup(q).value[1], DecodeGroup(q).value[2]) == q
  {
    var v0, v1, v2, v3 := ValueOf(q[0]).value, ValueOf(q[1]).value, ValueOf(q[2]).value, ValueOf(q[3]).value;
    JoinSextets(v0, v1, v2, v3);
    var b0, b1, b2 := v0 * 4 + v1 / 16, v1 % 16 * 16 + v2 / 4, v2 % 4 * 64 + v3;
    assert DecodeGroup(q).value == [b0, b1, b2];
    assert b0 / 4 == v0 && b0 % 4 * 16 + b1 / 16 == v1 && b1 % 16 * 4 + b2 / 64 == v2 && b2 % 64 == v3;
    assert EncodeGroup(b0, b1, b2) == [CharOf(v0), CharOf(v1), CharOf(v2), CharOf(v3)];
    assert [CharOf(v0), CharOf(v1), CharOf(v2), CharOf(v3)] == q;
  }

  /** A padded last group that decodes is the encoding of its bytes. */
  lemma PaddedCanonical(q: string)
    requires |q| == 4 && q[3] == '=' && DecodeLast(q).Some?
    ensures Encode(DecodeLast(q).value) == q
  {
    if q[2] == '=' {
      TwoPadsCanonical(q);
    } else {
      OnePadCanonical(q);
    }
  }

  lemma TwoPadsCanonical(q: string)
    requires |q| == 4 && q[2] == '=' && q[3] == '=' && DecodeLast(q).Some?
    ensures Encode(DecodeLast(q).value) == q
  {
    var v0, v1 := ValueOf(q[0]).value, ValueOf(q[1]).value;
    JoinSextets(v0, v1, 0, 0);
    assert v1 % 16 == 0;
    var b0 := v0 * 4 + v1 / 16;
    assert DecodeLast(q).value == [b0];
    assert b0 % 4 * 16 == v1;
    assert Encode([b0]) == [CharOf(v0), CharOf(v1), '=', '='];
  }

  lemma OnePadCanonical(q: string)
    requires |q| == 4 && q[2] != '=' && q[3] == '=' && DecodeLast(q).Some?
    ensures Encode(DecodeLast(q).value) == q
  {
    var v0, v1, v2 := ValueOf(q[0]).value, ValueOf(q[1]).value, ValueOf(q[2]).value;
    JoinSextets(v0, v1, v2, 0);
    assert v2 % 4 == 0;
    var b0, b1 := v0 * 4 + v1 / 16, v1 % 16 * 16 + v2 / 4;
    assert DecodeLast(q).value == [b0, b1];
    assert b1 % 16 * 4 == v2;
    assert Encode([b0, b1]) == [CharOf(v0), CharOf(v1), CharOf(v2), '='];
  }

  /** Only canonical encodings decode: whatever decodes is the encoding of
      what it decodes to. */
  lemma {:induction false} EncodeDecode(s: string)
    requires Decode(s).Some?
    ensures Encode(Decode(s).value) == s
    decreases |s|
  {
    if |s| == 0 {
    } else if |s| == 4 {
      if s[3] == '=' {
        PaddedCanonical(s);
      } else {
        var d := DecodeGroup(s).value;
        GroupCanonical(s);
        assert Encode(d) == EncodeGroup(d[0], d[1], d[2]) + Encode(d[3..]);
        assert d[3..] == [];
      }
    } else {
      var g := DecodeGroup(s[..4]).value;
      var rest := Decode(s[4..]).value;
      EncodeDecode(s[4..]);
      GroupCanonical(s[..4]);
      var d := g + rest;
      assert d[..3] == g && d[3..] == rest;
      assert Encode(d) == EncodeGroup(d[0], d[1], d[2]) + Encode(d[3..]);
      assert s == s[..4] + s[4..];
    }
  }
}
