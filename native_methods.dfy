/** The managed side of the native boundary on Windows: the log-level codes,
    the C structs exchanged with the worker library, and the marshalling
    helpers that move strings and byte buffers across it.

    Unmanaged memory is an `array?<byte>`: `null` is `IntPtr.Zero`, and the
    array is the readable block the pointer points into. A block with no
    zero byte in it is given the result `None` here; the real scan would
    run on past the block. */
module NativeMethods {
  import opened Common
  import Utf8

  /** `SmLogLevel`: one byte on both sides of the boundary. */
  datatype LogLevel = Info | Warning | Error {
    function Code(): (c: byte)
      ensures c <= 2
    {
      match this
      case Info => 0
      case Warning => 1
      case Error => 2
    }
  }

  /** The level a code denotes; codes above 2 denote none. */
  function LevelOf(c: byte): (r: Option<LogLevel>)
    ensures r.Some? <==> c <= 2
  {
    if c == 0 then Some(Info) else if c == 1 then Some(Warning) else if c == 2 then Some(Error) else None
  }

  /** The codes are distinct and read back as the level they encode. */
  lemma LogLevelCodes(l: LogLevel, c: byte)
    ensures LevelOf(l.Code()) == Some(l)
    ensures LevelOf(c).Some? ==> LevelOf(c).value.Code() == c
  {
  }

  /** `SmConfig` as laid out in memory (the padding is not modelled). */
  datatype SmConfig = SmConfig(enabled: bool, wsUrl: array?<byte>, token: array?<byte>, enableMediaReporting: bool)

  /** `SmStatus`: `lastError` is null when there is no error. */
  datatype SmStatus = SmStatus(isRunning: bool, isConnected: bool, lastError: array?<byte>)

  // ---------------------------------------------------------------------
  // Specification of a NUL-terminated string in memory
  // ---------------------------------------------------------------------

  /** Index of the first zero byte of `mem`, if any. */
  function FirstZero(mem: seq<byte>): (r: Option<nat>)
    ensures r.None? <==> 0 !in mem
    ensures r.Some? ==> r.value < |mem| && mem[r.value] == 0 && 0 !in mem[..r.value]
  {
    if mem == [] then None
    else if mem[0] == 0 then Some(0)
    else
      match FirstZero(mem[1..])
      case None => None
      case Some(i) =>
        assert mem[..i + 1] == [mem[0]] + mem[1..][..i];
        Some(i + 1)
  }

  /** A zero at `j` means the first zero is no later than `j`. */
  lemma {:induction false} FirstZeroAtMost(mem: seq<byte>, j: nat)
    requires j < |mem| && mem[j] == 0
    ensures FirstZero(mem).Some? && FirstZero(mem).value <= j
  {
    if mem[0] != 0 {
      FirstZeroAtMost(mem[1..], j - 1);
    }
  }

  /** The string a NUL-terminated UTF-8 buffer holds: the decoding of every
      byte before the first zero; none when the block has no terminator. */
  function CString(mem: seq<byte>): Option<string>
  {
    match FirstZero(mem)
    case None => None
    case Some(i) => Some(Utf8.Decode(mem[..i]))
  }

  /** A block whose first byte is the terminator holds the empty string. */
  lemma CStringEmpty(mem: seq<byte>)
    requires mem != [] && mem[0] == 0
    ensures CString(mem) == Some("")
  {
  }

  /** The bytes after the terminator do not matter. */
  lemma CStringIgnoresTail(bs: seq<byte>, tail: seq<byte>)
    requires 0 !in bs
    ensures CString(bs + [0] + tail) == Some(Utf8.Decode(bs))
  {
    var mem := bs + [0] + tail;
    var z := FirstZero(mem);
    assert mem[|bs|] == 0;
    assert forall k :: 0 <= k < |bs| ==> mem[k] == bs[k];
    FirstZeroAtMost(mem, |bs|);
    assert mem[..|bs|] == bs;
  }

  /** Round trip at the boundary: a string without U+0000 written as UTF-8
      with a terminator reads back as itself. */
  lemma CStringOfEncoded(s: string, tail: seq<byte>)
    requires '\0' !in s
    ensures CString(Utf8.Encode(s) + [0] + tail) == Some(s)
  {
    Utf8.EncodeNoZero(s);
    CStringIgnoresTail(Utf8.Encode(s), tail);
    Utf8.DecodeEncode(s);
  }

  // ---------------------------------------------------------------------
  // MarshalHelper
  // ---------------------------------------------------------------------

  /** `PtrToStringUTF8`: null for a null pointer; otherwise scan for the
      terminator and decode the bytes before it. A block with no zero byte
      gives None; this abstracts the source's read past the block (see
      "## Left out" in README.md). */
  method PtrToStringUTF8(ptr: array?<byte>) returns (r: Option<string>)
    ensures ptr == null ==> r == None
    ensures ptr != null ==> r == CString(ptr[..])
  {
    if ptr == null {
      return None;
    }
    var len := 0;
    while len < ptr.Length && ptr[len] != 0
      invariant 0 <= len <= ptr.Length
      invariant 0 !in ptr[..len]
    {
      len := len + 1;
    }
    if len == ptr.Length {
      assert ptr[..] == ptr[..len];
      return None;
    }
    assert ptr[..] == ptr[..len] + [0] + ptr[len + 1..];
    CStringIgnoresTail(ptr[..len], ptr[len + 1..]);
    if len == 0 {
      return Some("");
    }
    var buffer := new byte[len];
    var i := 0;
    while i < len
      invariant 0 <= i <= len
      invariant buffer[..i] == ptr[..i]
    {
      buffer[i] := ptr[i];
      i := i + 1;
    }
    assert buffer[..] == buffer[..len];
    r := Some(Utf8.Decode(buffer[..]));
  }

  /** `StringToPtrUTF8`: null for a null or empty string; otherwise a fresh
      block of UTF-8 length + 1 bytes, the encoding followed by one zero. */
  method StringToPtrUTF8(s: Option<string>) returns (ptr: array?<byte>)
    ensures ptr == null <==> (s.None? || s.value == "")
    ensures ptr != null ==> fresh(ptr) && ptr[..] == Utf8.Encode(s.value) + [0]
  {
    if s.None? || s.value == "" {
      return null;
    }
    var buffer := Utf8.Encode(s.value);
    ptr := new byte[|buffer| + 1];
    var i := 0;
    while i < |buffer|
      invariant 0 <= i <= |buffer|
      invariant ptr[..i] == buffer[..i]
    {
      ptr[i] := buffer[i];
      i := i + 1;
    }
    ptr[|buffer|] := 0;
    assert ptr[..] == ptr[..|buffer|] + [ptr[|buffer|]];
  }

  /** `PtrToByteArray`: null for a null pointer or a zero size; otherwise a
      fresh copy of exactly `size` bytes. A `size` larger than the block
      gives null; this abstracts the source's copy past the block (see
      "## Left out" in README.md). */
  method PtrToByteArray(ptr: array?<byte>, size: nat) returns (r: array?<byte>)
    ensures ptr == null || size == 0 ==> r == null
    ensures ptr != null && size > ptr.Length ==> r == null
    ensures ptr != null && 0 < size <= ptr.Length ==> r != null && fresh(r) && r[..] == ptr[..size]
  {
    if ptr == null || size == 0 {
      return null;
    }
    if size > ptr.Length {
      return null;
    }
    r := new byte[size];
    var i := 0;
    while i < size
      invariant 0 <= i <= size
      invariant r[..i] == ptr[..i]
    {
      r[i] := ptr[i];
      i := i + 1;
    }
  }

  /** Decoding what encoding wrote: every non-empty string without U+0000
      survives the trip through unmanaged memory. */
  method StringRoundTrip(s: string) returns (back: Option<string>)
    requires s != [] && '\0' !in s
    ensures back == Some(s)
  {
    var ptr := StringToPtrUTF8(Some(s));
    back := PtrToStringUTF8(ptr);
    CStringOfEncoded(s, []);
    assert ptr[..] == Utf8.Encode(s) + [0] + [];
  }
}
