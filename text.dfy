/**
 * JavaScript strings: sequences of UTF-16 code units, with the handful of
 * `String.prototype` operations the application uses (`trim`, `indexOf`,
 * `substring`, `slice`, `split`, `replace` with a literal pattern).
 */
module Utf16 {

  /** One UTF-16 code unit; `length`, `slice` and `substring` count these. */
  newtype CodeUnit = x: int | 0 <= x < 0x1_0000

  type Str = seq<CodeUnit>

  /** The code units of a literal written in the source: characters outside the
      Basic Multilingual Plane (emoji, for one) become a surrogate pair. */
  function Encode(s: string): (r: Str)
    ensures |s| <= |r| <= 2 * |s|
  {
    if s == [] then [] else EncodeChar(s[0]) + Encode(s[1..])
  }

  function EncodeChar(c: char): (r: Str)
    ensures 1 <= |r| <= 2
    ensures (c as int < 0x1_0000) == (|r| == 1)
  {
    var v := c as int;
    if v < 0x1_0000 then [v as CodeUnit]
    else
      var w := v - 0x1_0000;
      [(0xD800 + w / 0x400) as CodeUnit, (0xDC00 + w % 0x400) as CodeUnit]
  }

  lemma {:induction false} EncodeAppend(a: string, b: string)
    ensures Encode(a + b) == Encode(a) + Encode(b)
  {
    if a == [] {
      assert a + b == b;
    } else {
      assert (a + b)[0] == a[0] && (a + b)[1..] == a[1..] + b;
      EncodeAppend(a[1..], b);
    }
  }

  /** The code unit of a character of the Basic Multilingual Plane. */
  function Unit(c: char): CodeUnit {
    if c as int < 0x1_0000 then c as int as CodeUnit else 0xFFFD
  }

  /** The code units of a literal none of whose characters needs a surrogate pair;
      the same as `Encode` there, and cheaper to reason about. */
  function Units(s: string): (r: Str)
    ensures |r| == |s|
  {
    seq(|s|, i requires 0 <= i < |s| => Unit(s[i]))
  }

  lemma {:induction false} UnitsIsEncode(s: string)
    requires forall i | 0 <= i < |s| :: s[i] as int < 0x1_0000
    ensures Units(s) == Encode(s)
  {
    if s != [] {
      UnitsIsEncode(s[1..]);
      assert Units(s) == Units(s[..1]) + Units(s[1..]);
    }
  }

  lemma UnitsAppend(a: string, b: string)
    ensures Units(a + b) == Units(a) + Units(b)
  {
  }

  /** A character the literal does not contain is absent from its code units. */
  lemma UnitsExclude(s: string, c: char)
    requires c !in s && c as int < 0xFFFD
    ensures Unit(c) !in Units(s)
  {
    forall i | 0 <= i < |s| ensures Units(s)[i] != Unit(c) {
      assert s[i] != c;
    }
  }

  const LF: CodeUnit := 0x0A

  /** The characters a regular-expression `.` does not match. */
  predicate IsLineTerminator(u: CodeUnit) {
    u == 0x0A || u == 0x0D || u == 0x2028 || u == 0x2029
  }

  ghost predicate NoLineTerminator(s: Str) {
    forall i | 0 <= i < |s| :: !IsLineTerminator(s[i])
  }

  lemma UnitsOfOneLine(s: string)
    requires '\n' !in s && '\r' !in s && '\U{2028}' !in s && '\U{2029}' !in s
    ensures NoLineTerminator(Units(s))
  {
    UnitsExclude(s, '\n');
    UnitsExclude(s, '\r');
    UnitsExclude(s, '\U{2028}');
    UnitsExclude(s, '\U{2029}');
  }

  /** WhiteSpace and LineTerminator of ECMAScript: what `\s` matches and `trim` removes. */
  predicate IsSpace(u: CodeUnit) {
    || u == 0x09 || u == 0x0B || u == 0x0C || u == 0x20 || u == 0xA0
    || u == 0x1680 || (0x2000 <= u <= 0x200A) || u == 0x202F || u == 0x205F
    || u == 0x3000 || u == 0xFEFF || IsLineTerminator(u)
  }

  /** What `\d` matches. */
  predicate IsDigit(u: CodeUnit) {
    0x30 <= u <= 0x39
  }

  ghost predicate AllSpace(s: Str) {
    forall i | 0 <= i < |s| :: IsSpace(s[i])
  }

  /** Leading white space removed. */
  function TrimStart(s: Str): (r: Str)
    ensures |r| <= |s| && r == s[|s| - |r|..]
    ensures AllSpace(s[..|s| - |r|])
    ensures r == [] || !IsSpace(r[0])
  {
    if s != [] && IsSpace(s[0]) then
      var tail := s[1..];
      var r := TrimStart(tail);
      assert s[..|s| - |r|] == [s[0]] + tail[..|tail| - |r|];
      assert s[|s| - |r|..] == tail[|tail| - |r|..];
      r
    else s
  }

  /** Trailing white space removed. */
  function TrimEnd(s: Str): (r: Str)
    ensures |r| <= |s| && r == s[..|r|]
    ensures AllSpace(s[|r|..])
    ensures r == [] || !IsSpace(r[|r| - 1])
  {
    if s != [] && IsSpace(s[|s| - 1]) then
      var init := s[..|s| - 1];
      var r := TrimEnd(init);
      assert s[|r|..] == init[|r|..] + [s[|s| - 1]];
      r
    else s
  }

  /** `r` is `s` with all leading and trailing white space cut off. */
  ghost predicate TrimmedFrom(s: Str, r: Str) {
    exists i :: 0 <= i <= |s| - |r| && r == s[i..i + |r|]
      && AllSpace(s[..i]) && AllSpace(s[i + |r|..])
      && (r == [] || (!IsSpace(r[0]) && !IsSpace(r[|r| - 1])))
  }

  /** `String.prototype.trim`. */
  function Trim(s: Str): (r: Str)
    ensures TrimmedFrom(s, r)
    ensures r == [] || (!IsSpace(r[0]) && !IsSpace(r[|r| - 1]))
  {
    var t := TrimStart(s);
    var r := TrimEnd(t);
    var i := |s| - |t|;
    assert r == s[i..i + |r|];
    assert s[i + |r|..] == t[|r|..];
    r
  }

  /** Where `Trim(s)` sits inside `s`. */
  lemma TrimIsSlice(s: Str) returns (i: nat)
    ensures i + |Trim(s)| <= |s| && Trim(s) == s[i..i + |Trim(s)|]
  {
    i := |s| - |TrimStart(s)|;
  }

  /** Trimming a string that starts and ends with something other than white space, and is
      followed by white space only, gives back the string. */
  lemma {:induction false} TrimPadded(s: Str, pad: Str)
    requires s != [] && !IsSpace(s[0]) && !IsSpace(s[|s| - 1]) && AllSpace(pad)
    ensures Trim(s + pad) == s
  {
    assert TrimStart(s + pad) == s + pad;
    TrimEndPadded(s, pad);
  }

  lemma {:induction false} TrimEndPadded(s: Str, pad: Str)
    requires s != [] && !IsSpace(s[|s| - 1]) && AllSpace(pad)
    ensures TrimEnd(s + pad) == s
    decreases |pad|
  {
    if pad == [] {
      assert s + pad == s;
    } else {
      var shorter := pad[..|pad| - 1];
      assert (s + pad)[..|s + pad| - 1] == s + shorter;
      TrimEndPadded(s, shorter);
    }
  }

  /** `!s.trim()`: the string holds nothing but white space. */
  predicate IsBlank(s: Str) {
    Trim(s) == []
  }

  lemma {:induction false} BlankIsAllSpace(s: Str)
    ensures IsBlank(s) <==> AllSpace(s)
  {
    var t := TrimStart(s);
    if Trim(s) == [] {
      assert s[..|s|] == s;
    } else {
      var i := TrimIsSlice(s);
      assert s[i] == Trim(s)[0];
    }
  }

  /** `p` occurs in `s` starting at index `k`. */
  predicate OccursAt(s: Str, p: Str, k: int) {
    0 <= k && k + |p| <= |s| && s[k..k + |p|] == p
  }

  lemma OccursAtUnit(s: Str, u: CodeUnit, k: int)
    ensures OccursAt(s, [u], k) <==> 0 <= k < |s| && s[k] == u
  {
    if 0 <= k < |s| { assert s[k..k + 1] == [s[k]]; }
  }

  /** `s.indexOf(p)`: the first index at which `p` occurs, or -1. */
  function IndexOf(s: Str, p: Str): (r: int)
    ensures -1 <= r <= |s|
    ensures r >= 0 ==> OccursAt(s, p, r)
    ensures forall k :: 0 <= k && (r < 0 || k < r) ==> !OccursAt(s, p, k)
  {
    IndexFrom(s, p, 0)
  }

  function IndexFrom(s: Str, p: Str, from: nat): (r: int)
    ensures r == -1 || (from <= r <= |s| && OccursAt(s, p, r))
    ensures forall k :: from <= k && (r < 0 || k < r) ==> !OccursAt(s, p, k)
    decreases |s| - from
  {
    if from + |p| > |s| then -1
    else if s[from..from + |p|] == p then from
    else IndexFrom(s, p, from + 1)
  }

  /** `indexOf` finds `p` at `k` when it occurs there and its first unit occurs nowhere before. */
  lemma IndexOfAt(s: Str, p: Str, k: nat)
    requires p != [] && OccursAt(s, p, k) && p[0] !in s[..k]
    ensures IndexOf(s, p) == k
  {
  }

  lemma IndexOfAbsent(s: Str, u: CodeUnit)
    requires u !in s
    ensures IndexOf(s, [u]) == -1
  {
    var r := IndexOf(s, [u]);
    if r >= 0 {
      OccursAtUnit(s, u, r);
    }
  }

  /** `s.replace(p, '')` for a literal pattern `p`: only the first occurrence goes. */
  function RemoveFirst(s: Str, p: Str): (r: Str)
    ensures IndexOf(s, p) < 0 ==> r == s
    ensures IndexOf(s, p) >= 0 ==> |r| == |s| - |p|
    ensures IndexOf(s, p) >= 0 ==>
      r[..IndexOf(s, p)] == s[..IndexOf(s, p)] && r[IndexOf(s, p)..] == s[IndexOf(s, p) + |p|..]
  {
    var k := IndexOf(s, p);
    if k < 0 then s else s[..k] + s[k + |p|..]
  }

  /** Every occurrence of `p` after the first survives `RemoveFirst`, shifted left by `|p|`. */
  lemma RemoveFirstKeepsLaterOccurrences(s: Str, p: Str, j: int)
    requires IndexOf(s, p) >= 0 && j >= IndexOf(s, p) + |p| && OccursAt(s, p, j)
    ensures OccursAt(RemoveFirst(s, p), p, j - |p|)
  {
    var k := IndexOf(s, p);
    var r := RemoveFirst(s, p);
    assert r[j - |p|..j] == s[j..j + |p|];
  }

  function Clamp(i: int, n: nat): (r: nat)
    ensures r <= n
  {
    if i < 0 then 0 else if i > n then n else i
  }

  /** `s.substring(start, end)`: both indices clamped to `[0, |s|]`, and swapped when `start > end`. */
  function Substring(s: Str, start: int, end: int): (r: Str)
    ensures start <= end && 0 <= start && end <= |s| ==> r == s[start..end]
    ensures end < start && 0 <= end && start <= |s| ==> r == s[end..start]
  {
    var a := Clamp(start, |s|);
    var b := Clamp(end, |s|);
    if a <= b then s[a..b] else s[b..a]
  }

  /** `split` cuts at the first separator and goes on with the rest. */
  lemma SplitAt(s: Str, sep: CodeUnit, k: nat)
    requires k < |s| && s[k] == sep && sep !in s[..k]
    ensures Split(s, sep) == [s[..k]] + Split(s[k + 1..], sep)
  {
    OccursAtUnit(s, sep, k);
    IndexOfAt(s, [sep], k);
  }

  lemma SplitNone(s: Str, sep: CodeUnit)
    requires sep !in s
    ensures Split(s, sep) == [s]
  {
    IndexOfAbsent(s, sep);
  }

  /** `parts.join(sep)`. */
  function Join(parts: seq<Str>, sep: CodeUnit): Str {
    if parts == [] then []
    else if |parts| == 1 then parts[0]
    else parts[0] + [sep] + Join(parts[1..], sep)
  }

  /** `s.split(sep)` for a one-unit separator; `Join` undoes it. */
  function Split(s: Str, sep: CodeUnit): (parts: seq<Str>)
    ensures |parts| >= 1
    ensures forall i | 0 <= i < |parts| :: sep !in parts[i]
    ensures Join(parts, sep) == s
    decreases |s|
  {
    var k := IndexOf(s, [sep]);
    if k < 0 then
      NoSeparator(s, sep);
      [s]
    else
      FirstSeparator(s, sep, k);
      var rest := Split(s[k + 1..], sep);
      JoinCons(s[..k], rest, sep);
      [s[..k]] + rest
  }

  lemma NoSeparator(s: Str, sep: CodeUnit)
    requires IndexOf(s, [sep]) < 0
    ensures sep !in s
  {
    forall i | 0 <= i < |s| ensures s[i] != sep { OccursAtUnit(s, sep, i); }
  }

  lemma FirstSeparator(s: Str, sep: CodeUnit, k: int)
    requires k == IndexOf(s, [sep]) && k >= 0
    ensures k < |s| && sep !in s[..k] && s == s[..k] + [sep] + s[k + 1..]
  {
    OccursAtUnit(s, sep, k);
    forall i | 0 <= i < k ensures s[i] != sep { OccursAtUnit(s, sep, i); }
  }

  lemma JoinCons(head: Str, rest: seq<Str>, sep: CodeUnit)
    requires |rest| >= 1
    ensures Join([head] + rest, sep) == head + [sep] + Join(rest, sep)
  {
    assert ([head] + rest)[1..] == rest;
  }
}
