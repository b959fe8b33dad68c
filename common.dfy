/** Shared vocabulary of the reporter bridge model: optional values, results,
    bytes, bounded logs and the few string operations the bridges use. */
module Common {

  /** A value that may be absent (a null pointer, a `None`, a `nil`). */
  datatype Option<+T> = None | Some(value: T) {
    /** The value, or `default` when absent (C#'s `??`, Rust's `unwrap_or`). */
    function GetOr(default: T): T {
      match this
      case Some(v) => v
      case None => default
    }
  }

  /** Rust's `Result<T, E>`. */
  datatype Result<+T, +E> = Ok(value: T) | Err(error: E)

  type byte = b: int | 0 <= b < 0x100

  // ---------------------------------------------------------------------
  // Bounded logs: every shell keeps only its newest entries.
  // ---------------------------------------------------------------------

  /** The newest `n` elements of `s` (all of `s` when it is not longer). */
  function KeepLast<T>(s: seq<T>, n: nat): (r: seq<T>)
    ensures |r| <= n
    ensures |s| <= n ==> r == s
    ensures |s| > n ==> |r| == n
    ensures r == s[|s| - |r|..]
  {
    if |s| > n then s[|s| - n..] else s
  }

  /** Append one entry to a log and drop the oldest entries beyond `n`. */
  function AppendCapped<T>(log: seq<T>, x: T, n: nat): (r: seq<T>)
    ensures |r| <= n
  {
    KeepLast(log + [x], n)
  }

  /** An appended entry is the newest one kept, and only the front is dropped. */
  lemma AppendCappedKeepsNewest<T>(log: seq<T>, x: T, n: nat)
    requires n > 0
    ensures var r := AppendCapped(log, x, n);
      r != [] && r[|r| - 1] == x && r[..|r| - 1] == log[|log| + 1 - |r|..]
  {
  }

  /** A sequence of appends to a capped log: no appends leave it alone;
      otherwise it ends capped, with the last entry appended newest. */
  function AppendAllCapped<T>(log: seq<T>, xs: seq<T>, n: nat): (r: seq<T>)
    ensures xs == [] ==> r == log
    ensures xs != [] ==> |r| <= n
    ensures xs != [] && n > 0 ==> r != [] && r[|r| - 1] == xs[|xs| - 1]
    decreases |xs|
  {
    if xs == [] then log else AppendAllCapped(AppendCapped(log, xs[0], n), xs[1..], n)
  }

  /** Capping before an append is invisible: the capped log of a longer
      history is the capped log of its prefix, extended. */
  lemma KeepLastAppend<T>(s: seq<T>, x: T, n: nat)
    ensures AppendCapped(KeepLast(s, n), x, n) == KeepLast(s + [x], n)
  {
    var k := KeepLast(s, n);
    if |s| > n {
      assert |k| == n;
      assert (k + [x])[1..] == (s + [x])[|s| + 1 - n..];
    }
  }

  /** A log that is capped after every append always holds exactly the
      newest `n` entries of the whole history. */
  lemma {:induction false} AppendAllCappedIsSuffix<T>(history: seq<T>, xs: seq<T>, n: nat)
    ensures AppendAllCapped(KeepLast(history, n), xs, n) == KeepLast(history + xs, n)
    decreases |xs|
  {
    if xs != [] {
      var k := KeepLast(history, n);
      calc {
        AppendAllCapped(k, xs, n);
        AppendAllCapped(AppendCapped(k, xs[0], n), xs[1..], n);
        { KeepLastAppend(history, xs[0], n); }
        AppendAllCapped(KeepLast(history + [xs[0]], n), xs[1..], n);
        { AppendAllCappedIsSuffix(history + [xs[0]], xs[1..], n); }
        KeepLast(history + [xs[0]] + xs[1..], n);
        { assert history + [xs[0]] + xs[1..] == history + xs; }
        KeepLast(history + xs, n);
      }
    }
  }

  // ---------------------------------------------------------------------
  // Strings
  // ---------------------------------------------------------------------

  /** Number of places where a flag differs from the one before it (the first
      flag is compared with `prev`). */
  function Edges(prev: bool, flags: seq<bool>): nat
    decreases |flags|
  {
    if flags == [] then 0 else (if flags[0] != prev then 1 else 0) + Edges(flags[0], flags[1..])
  }

  predicate StartsWith<T(==)>(s: seq<T>, prefix: seq<T>)
  {
    |prefix| <= |s| && s[..|prefix|] == prefix
  }

  /** `pat` occurs in `s` at position `i`. */
  predicate OccursAt<T(==)>(s: seq<T>, pat: seq<T>, i: int)
  {
    0 <= i && i + |pat| <= |s| && s[i..i + |pat|] == pat
  }

  /** Substring test (`str.contains`, `String.Contains`). */
  function Contains<T(==)>(s: seq<T>, pat: seq<T>): (b: bool)
    ensures b <==> exists i :: OccursAt(s, pat, i)
    decreases |s|
  {
    if StartsWith(s, pat) then
      assert OccursAt(s, pat, 0);
      true
    else if s == [] then
      assert forall i :: !OccursAt(s, pat, i);
      false
    else
      var b := Contains(s[1..], pat);
      assert !OccursAt(s, pat, 0);
      assert b ==> exists i :: OccursAt(s, pat, i) by {
        if b {
          var i :| OccursAt(s[1..], pat, i);
          OccursShift(s, pat, i);
        }
      }
      assert (exists i :: OccursAt(s, pat, i)) ==> b by {
        if exists i :: OccursAt(s, pat, i) {
          var i :| OccursAt(s, pat, i);
          assert i > 0;
          OccursShift(s, pat, i - 1);
        }
      }
      b
  }

  /** An occurrence in the tail is one place further on in the whole. */
  lemma OccursShift<T>(s: seq<T>, pat: seq<T>, i: nat)
    requires s != []
    ensures OccursAt(s[1..], pat, i) <==> OccursAt(s, pat, i + 1)
  {
    if i + |pat| <= |s| - 1 {
      assert s[1..][i..i + |pat|] == s[i + 1..i + 1 + |pat|];
    }
  }

  /** Number of non-overlapping occurrences of `pat`, scanning left to right
      (Rust's `str::matches(..).count()`). */
  function CountMatches<T(==)>(s: seq<T>, pat: seq<T>): (k: nat)
    requires pat != []
    ensures k * |pat| <= |s|
    decreases |s|
  {
    if |s| < |pat| then 0
    else if s[..|pat|] == pat then 1 + CountMatches(s[|pat|..], pat)
    else CountMatches(s[1..], pat)
  }

  /** No match is counted exactly when the pattern does not occur. */
  lemma {:induction false} CountMatchesZero<T>(s: seq<T>, pat: seq<T>)
    requires pat != []
    ensures CountMatches(s, pat) == 0 <==> !Contains(s, pat)
    decreases |s|
  {
    if |s| < |pat| {
      assert !StartsWith(s, pat);
      assert forall i :: !OccursAt(s, pat, i);
    } else if s[..|pat|] == pat {
      assert OccursAt(s, pat, 0);
    } else {
      CountMatchesZero(s[1..], pat);
      assert Contains(s, pat) == Contains(s[1..], pat) by {
        assert !StartsWith(s, pat);
      }
    }
  }

  /** Replace every non-overlapping occurrence of `pat`, left to right
      (Rust's `str::replace`). */
  function ReplaceAll<T(==)>(s: seq<T>, pat: seq<T>, rep: seq<T>): (r: seq<T>)
    requires pat != []
    ensures CountMatches(s, pat) == 0 ==> r == s
    decreases |s|
  {
    if |s| < |pat| then s
    else if s[..|pat|] == pat then rep + ReplaceAll(s[|pat|..], pat, rep)
    else
      [s[0]] + ReplaceAll(s[1..], pat, rep)
  }

  /** An occurrence in the tail is an occurrence in the whole. */
  lemma ContainsInTail<T>(s: seq<T>, pat: seq<T>)
    requires s != []
    ensures Contains(s[1..], pat) ==> Contains(s, pat)
  {
    if Contains(s[1..], pat) {
      var i :| OccursAt(s[1..], pat, i);
      assert s[1..][i..i + |pat|] == s[i + 1..i + 1 + |pat|];
      assert OccursAt(s, pat, i + 1);
    }
  }

  /** Where the pattern starts the input, the replacement starts the
      output. */
  lemma ReplaceAllHead<T>(t: seq<T>, pat: seq<T>, rep: seq<T>)
    requires pat != [] && rep != [] && StartsWith(t, pat)
    ensures |ReplaceAll(t, pat, rep)| > 0 && ReplaceAll(t, pat, rep)[0] == rep[0]
  {
    assert ReplaceAll(t, pat, rep) == rep + ReplaceAll(t[|pat|..], pat, rep);
  }

  /** A prefix free of the replacement's first element survives
      replacement only if it was there before. */
  lemma {:induction false} ReplaceAllKeepsPrefix<T>(t: seq<T>, pat: seq<T>, rep: seq<T>, p: seq<T>)
    requires pat != [] && rep != [] && rep[0] !in p
    requires StartsWith(ReplaceAll(t, pat, rep), p)
    ensures StartsWith(t, p)
    decreases |p|
  {
    var r := ReplaceAll(t, pat, rep);
    if p == [] {
      assert t[..0] == [];
    } else if |t| < |pat| {
    } else if t[..|pat|] == pat {
      ReplaceAllHead(t, pat, rep);
      assert false;
    } else {
      var r1 := ReplaceAll(t[1..], pat, rep);
      assert r == [t[0]] + r1;
      assert |p| <= |r|;
      assert r[..|p|] == p;
      assert r1[..|p| - 1] == p[1..] by {
        forall i | 0 <= i < |p| - 1
          ensures r1[i] == p[1..][i]
        {
          assert r1[i] == r[i + 1] == r[..|p|][i + 1];
        }
      }
      ReplaceAllKeepsPrefix(t[1..], pat, rep, p[1..]);
      assert t[..|p|] == [t[0]] + t[1..][..|p| - 1];
    }
  }

  /** A pattern does not occur after a block none of whose elements it
      holds, unless it occurs after the block. */
  lemma {:induction false} ContainsAfterForeign<T>(block: seq<T>, rest: seq<T>, q: seq<T>)
    requires q != [] && forall x :: x in block ==> x !in q
    requires !Contains(rest, q)
    ensures !Contains(block + rest, q)
    decreases |block|
  {
    if block != [] {
      assert block[0] in block && q[0] in q;
      assert |q| <= |block + rest| ==> (block + rest)[..|q|][0] == block[0];
      assert !StartsWith(block + rest, q);
      ContainsAfterForeign(block[1..], rest, q);
      var x := block + rest;
      assert x[1..] == block[1..] + rest;
      assert Contains(x, q) == Contains(x[1..], q);
    } else {
      assert block + rest == rest;
    }
  }

  /** Replacing a pattern by a non-empty block foreign to `q` keeps a
      string free of `q`; with `q` the pattern itself, it removes every
      occurrence. */
  lemma {:induction false} ReplaceAllAvoids<T>(s: seq<T>, pat: seq<T>, rep: seq<T>, q: seq<T>)
    requires pat != [] && rep != [] && q != []
    requires forall x :: x in rep ==> x !in q
    requires q == pat || !Contains(s, q)
    ensures !Contains(ReplaceAll(s, pat, rep), q)
    decreases |s|
  {
    if |s| < |pat| {
      if q == pat {
        assert forall i :: !OccursAt(s, q, i);
      }
    } else if s[..|pat|] == pat {
      var rest := s[|pat|..];
      if q != pat {
        assert !Contains(rest, q) by { ContainsInSuffix(s, q, |pat|); }
      }
      ReplaceAllAvoids(rest, pat, rep, q);
      ContainsAfterForeign(rep, ReplaceAll(rest, pat, rep), q);
    } else {
      var r := ReplaceAll(s[1..], pat, rep);
      if q != pat {
        ContainsInTail(s, q);
      }
      ReplaceAllAvoids(s[1..], pat, rep, q);
      assert ReplaceAll(s, pat, rep) == [s[0]] + r;
      assert rep[0] in rep;
      NoNewStart(s, pat, rep, q);
      assert ([s[0]] + r)[1..] == r;
    }
  }

  /** `a` and `pat` differ at some position both of them have. */
  predicate Mismatch<T(==)>(a: seq<T>, pat: seq<T>)
    decreases |a|
  {
    a != [] && pat != [] && (a[0] != pat[0] || Mismatch(a[1..], pat[1..]))
  }

  /** No occurrence of `pat` can start inside `a`, whatever follows it:
      from every position of `a` on, `a` itself already disagrees with
      `pat`. */
  predicate Clear<T(==)>(a: seq<T>, pat: seq<T>)
    decreases |a|
  {
    a == [] || (Mismatch(a, pat) && Clear(a[1..], pat))
  }

  /** A block that does not hold the pattern's first element is clear of
      it. */
  lemma {:induction false} ForeignIsClear<T>(a: seq<T>, pat: seq<T>)
    requires pat != [] && pat[0] !in a
    ensures Clear(a, pat)
    decreases |a|
  {
    if a != [] {
      assert a[0] in a;
      assert forall x :: x in a[1..] ==> x in a;
      ForeignIsClear(a[1..], pat);
    }
  }

  /** A mismatch inside `a` keeps `pat` from starting `a + rest`. */
  lemma {:induction false} MismatchBlocks<T>(a: seq<T>, rest: seq<T>, pat: seq<T>)
    requires Mismatch(a, pat)
    ensures !StartsWith(a + rest, pat)
    decreases |a|
  {
    if a[0] == pat[0] {
      MismatchBlocks(a[1..], rest, pat[1..]);
      assert (a + rest)[1..] == a[1..] + rest;
    }
  }

  /** Taking the head off a concatenation. */
  lemma ConsConcat<T>(a: seq<T>, rest: seq<T>, r: seq<T>)
    requires a != []
    ensures (a + rest)[0] == a[0] && (a + rest)[1..] == a[1..] + rest
    ensures [a[0]] + (a[1..] + r) == a + r
  {
  }

  /** Replacement leaves an input shorter than the pattern alone. */
  lemma ReplaceAllShort<T>(s: seq<T>, pat: seq<T>, rep: seq<T>)
    requires pat != [] && |s| < |pat|
    ensures ReplaceAll(s, pat, rep) == s
  {
  }

  /** Replacement keeps an element that does not start the pattern. */
  lemma ReplaceAllSkip<T>(s: seq<T>, pat: seq<T>, rep: seq<T>)
    requires pat != [] && |s| >= |pat| && s[..|pat|] != pat
    ensures ReplaceAll(s, pat, rep) == [s[0]] + ReplaceAll(s[1..], pat, rep)
  {
  }

  /** Replacement passes over a clear block unchanged. */
  lemma {:induction false} ReplaceAllClear<T>(a: seq<T>, rest: seq<T>, pat: seq<T>, rep: seq<T>)
    requires pat != [] && Clear(a, pat)
    ensures ReplaceAll(a + rest, pat, rep) == a + ReplaceAll(rest, pat, rep)
    decreases |a|
  {
    if a == [] {
      assert a + rest == rest;
    } else {
      MismatchBlocks(a, rest, pat);
      var s := a + rest;
      if |s| < |pat| {
        ReplaceAllShort(s, pat, rep);
        ReplaceAllShort(rest, pat, rep);
      } else {
        ReplaceAllSkip(s, pat, rep);
        ReplaceAllClear(a[1..], rest, pat, rep);
        ConsConcat(a, rest, ReplaceAll(rest, pat, rep));
      }
    }
  }

  /** The first occurrence after a clear block is the one replaced first:
      `a + pat + b` becomes `a + rep` followed by the replaced `b`. */
  lemma ReplaceAllSplit<T>(a: seq<T>, pat: seq<T>, b: seq<T>, rep: seq<T>)
    requires pat != [] && Clear(a, pat)
    ensures ReplaceAll(a + pat + b, pat, rep) == a + rep + ReplaceAll(b, pat, rep)
  {
    assert a + pat + b == a + (pat + b);
    ReplaceAllClear(a, pat + b, pat, rep);
    assert (pat + b)[..|pat|] == pat && (pat + b)[|pat|..] == b;
  }

  /** Counting passes over a clear block without counting. */
  lemma {:induction false} CountMatchesClear<T>(a: seq<T>, rest: seq<T>, pat: seq<T>)
    requires pat != [] && Clear(a, pat)
    ensures CountMatches(a + rest, pat) == CountMatches(rest, pat)
    decreases |a|
  {
    if a == [] {
      assert a + rest == rest;
    } else {
      MismatchBlocks(a, rest, pat);
      if |a + rest| >= |pat| {
        assert (a + rest)[1..] == a[1..] + rest;
        CountMatchesClear(a[1..], rest, pat);
      }
    }
  }

  /** The occurrence after a clear block is counted once: `a + pat + b`
      has one match more than `b`. */
  lemma CountMatchesSplit<T>(a: seq<T>, pat: seq<T>, b: seq<T>)
    requires pat != [] && Clear(a, pat)
    ensures CountMatches(a + pat + b, pat) == 1 + CountMatches(b, pat)
  {
    assert a + pat + b == a + (pat + b);
    CountMatchesClear(a, pat + b, pat);
    assert (pat + b)[..|pat|] == pat && (pat + b)[|pat|..] == b;
  }

  /** A one-element pattern is counted once per occurrence of the
      element. */
  lemma {:induction false} CountMatchesSingle<T>(s: seq<T>, c: T)
    ensures CountMatches(s, [c]) == multiset(s)[c]
    decreases |s|
  {
    if s != [] {
      CountMatchesSingle(s[1..], c);
      assert s == [s[0]] + s[1..];
      assert multiset(s) == multiset([s[0]]) + multiset(s[1..]);
      assert s[..1] == [s[0]];
    }
  }

  /** An element kept by the replacement starts the pattern afterwards
      only if it started it before. */
  lemma NoNewStart<T>(s: seq<T>, pat: seq<T>, rep: seq<T>, q: seq<T>)
    requires pat != [] && rep != [] && q != [] && rep[0] !in q
    requires |s| >= |pat| && s[..|pat|] != pat
    requires !StartsWith(s, q)
    ensures !StartsWith([s[0]] + ReplaceAll(s[1..], pat, rep), q)
  {
    var r := ReplaceAll(s[1..], pat, rep);
    if StartsWith([s[0]] + r, q) {
      assert q[0] == s[0] by {
        assert ([s[0]] + r)[..|q|][0] == ([s[0]] + r)[0];
      }
      assert StartsWith(r, q[1..]) by {
        assert r[..|q| - 1] == ([s[0]] + r)[1..|q|];
      }
      assert rep[0] !in q[1..];
      ReplaceAllKeepsPrefix(s[1..], pat, rep, q[1..]);
      assert false;
    }
  }

  /** An occurrence in a suffix is an occurrence in the whole. */
  lemma ContainsInSuffix<T>(s: seq<T>, pat: seq<T>, k: nat)
    requires k <= |s|
    ensures Contains(s[k..], pat) ==> Contains(s, pat)
  {
    if Contains(s[k..], pat) {
      var i :| OccursAt(s[k..], pat, i);
      assert s[k..][i..i + |pat|] == s[i + k..i + k + |pat|];
      assert OccursAt(s, pat, i + k);
    }
  }

  /** Remove every trailing `c` (Rust's `trim_end_matches(c)`). */
  function TrimEnd<T(==)>(s: seq<T>, c: T): (r: seq<T>)
    ensures |r| <= |s|
    ensures StartsWith(s, r)
    ensures r == [] || r[|r| - 1] != c
    ensures forall i :: |r| <= i < |s| ==> s[i] == c
    decreases |s|
  {
    if s != [] && s[|s| - 1] == c then TrimEnd(s[..|s| - 1], c) else s
  }

  /** Remove every leading `c` (Rust's `trim_start_matches(c)`). */
  function TrimStart<T(==)>(s: seq<T>, c: T): (r: seq<T>)
    ensures |r| <= |s| && r == s[|s| - |r|..]
    ensures r == [] || r[0] != c
    ensures forall i :: 0 <= i < |s| - |r| ==> s[i] == c
    decreases |s|
  {
    if s != [] && s[0] == c then TrimStart(s[1..], c) else s
  }

  /** Remove `c` from both ends (Rust's `trim_matches(c)`): what is left
      is a part of `s` with no `c` at either end. */
  function Trim<T(==)>(s: seq<T>, c: T): (r: seq<T>)
    ensures |r| <= |TrimEnd(s, c)| <= |s|
    ensures r == [] || (r[0] != c && r[|r| - 1] != c)
    ensures (s == [] || (s[0] != c && s[|s| - 1] != c)) ==> r == s
    ensures r == s[|TrimEnd(s, c)| - |r|..|TrimEnd(s, c)|]
    ensures forall k :: 0 <= k < |TrimEnd(s, c)| - |r| ==> s[k] == c
    ensures forall k :: |TrimEnd(s, c)| <= k < |s| ==> s[k] == c
  {
    TrimSlice(s, c);
    TrimStart(TrimEnd(s, c), c)
  }

  /** Trimming both ends leaves the part of `s` between a leading and a
      trailing run of `c`, with no `c` at either end. */
  lemma TrimSlice<T>(s: seq<T>, c: T)
    ensures var e := TrimEnd(s, c); var t := TrimStart(e, c);
      |t| <= |e| <= |s|
    ensures var e := TrimEnd(s, c); var t := TrimStart(e, c);
      t == [] || (t[0] != c && t[|t| - 1] != c)
    ensures (s == [] || (s[0] != c && s[|s| - 1] != c)) ==> TrimStart(TrimEnd(s, c), c) == s
    ensures var e := TrimEnd(s, c); var t := TrimStart(e, c);
      t == s[|e| - |t|..|e|]
    ensures var e := TrimEnd(s, c); var t := TrimStart(e, c);
      forall k :: 0 <= k < |e| - |t| ==> s[k] == c
    ensures forall k :: |TrimEnd(s, c)| <= k < |s| ==> s[k] == c
  {
    var e := TrimEnd(s, c);
    var t := TrimStart(e, c);
    assert e == s[..|e|];
    if t != [] {
      assert t[|t| - 1] == e[|e| - 1];
    }
    forall k | 0 <= k < |e| - |t|
      ensures s[k] == c
    {
      assert e[k] == s[k];
    }
  }

  /** .NET's `char.IsWhiteSpace`: the Unicode White_Space characters. */
  predicate IsWhiteSpace(c: char)
  {
    ('\U{9}' <= c <= '\U{D}') || c == ' ' || c == '\U{85}' || c == '\U{A0}' ||
    c == '\U{1680}' || ('\U{2000}' <= c <= '\U{200A}') || c == '\U{2028}' ||
    c == '\U{2029}' || c == '\U{202F}' || c == '\U{205F}' || c == '\U{3000}'
  }

  /** .NET's `string.IsNullOrWhiteSpace` on a non-null string: empty, or
      made only of white space. */
  function IsBlank(s: string): (b: bool)
    ensures s == [] ==> b
    ensures b <==> forall c :: c in s ==> IsWhiteSpace(c)
  {
    forall i :: 0 <= i < |s| ==> IsWhiteSpace(s[i])
  }

  /** ASCII case mapping (the only case folding this model performs). */
  function AsciiLower(c: char): char
  {
    if 'A' <= c <= 'Z' then (c as int + 32) as char else c
  }

  function AsciiUpper(c: char): char
  {
    if 'a' <= c <= 'z' then (c as int - 32) as char else c
  }

  function ToLower(s: string): (r: string)
    ensures |r| == |s|
  {
    seq(|s|, i requires 0 <= i < |s| => AsciiLower(s[i]))
  }

  function ToUpper(s: string): (r: string)
    ensures |r| == |s|
  {
    seq(|s|, i requires 0 <= i < |s| => AsciiUpper(s[i]))
  }

  /** Case-insensitive substring test (`Contains(.., OrdinalIgnoreCase)`),
      which compares both strings in upper case. */
  predicate ContainsIgnoreCase(s: string, pat: string)
  {
    Contains(ToUpper(s), ToUpper(pat))
  }

  /** Lower-casing the pattern first makes no difference to an ignore-case search. */
  lemma ToLowerIgnoredByIgnoreCase(s: string, pat: string)
    ensures ContainsIgnoreCase(s, ToLower(pat)) == ContainsIgnoreCase(s, pat)
  {
    assert ToUpper(ToLower(pat)) == ToUpper(pat);
  }
}
