/** Shared building blocks: an Option type, character classes of Python and
    JavaScript, and the string operations both code bases lean on (strip/trim,
    lower-casing, split, prefix/suffix tests, JavaScript's slice and parseInt). */
module Common {

  datatype Option<T> = None | Some(value: T) {
    function GetOr(default: T): T {
      if Some? then value else default
    }
  }

  /** Which language's whitespace table a strip or trim uses. */
  datatype Lang = Py | Js

  predicate IsAsciiUpper(c: char) { 'A' <= c <= 'Z' }
  predicate IsAsciiLower(c: char) { 'a' <= c <= 'z' }
  predicate IsAsciiDigit(c: char) { '0' <= c <= '9' }
  predicate IsAsciiAlnum(c: char) { IsAsciiUpper(c) || IsAsciiLower(c) || IsAsciiDigit(c) }
  predicate IsHexDigit(c: char) { IsAsciiDigit(c) || 'a' <= c <= 'f' || 'A' <= c <= 'F' }

  /** The characters for which Python's str.isspace() holds. */
  predicate IsPySpace(c: char) {
    c == ' ' || '\t' <= c <= '\r' || '\U{1C}' <= c <= '\U{1F}' || c == '\U{85}' || c == '\U{A0}'
    || c == '\U{1680}' || '\U{2000}' <= c <= '\U{200A}' || c == '\U{2028}' || c == '\U{2029}'
    || c == '\U{202F}' || c == '\U{205F}' || c == '\U{3000}'
  }

  /** JavaScript's WhiteSpace and LineTerminator: what trim() removes and \s matches. */
  predicate IsJsSpace(c: char) {
    c == ' ' || '\t' <= c <= '\r' || c == '\U{A0}' || c == '\U{1680}' || '\U{2000}' <= c <= '\U{200A}'
    || c == '\U{2028}' || c == '\U{2029}' || c == '\U{202F}' || c == '\U{205F}' || c == '\U{3000}'
    || c == '\U{FEFF}'
  }

  /** JavaScript's LineTerminator: the characters `.` in a regular expression does not match. */
  predicate IsJsLineTerminator(c: char) {
    c == '\n' || c == '\r' || c == '\U{2028}' || c == '\U{2029}'
  }

  predicate IsSpace(lang: Lang, c: char) {
    if lang == Py then IsPySpace(c) else IsJsSpace(c)
  }

  predicate AllSpace(lang: Lang, s: string) {
    forall i :: 0 <= i < |s| ==> IsSpace(lang, s[i])
  }

  /** Length of the longest prefix of s made of JavaScript whitespace. */
  function SpaceRun(s: string): (k: nat)
    ensures k <= |s|
    ensures k == |s| || !IsJsSpace(s[k])
  {
    if s == [] || !IsJsSpace(s[0]) then 0 else 1 + SpaceRun(s[1..])
  }

  /** The run holds whitespace only, so it ends at or before any other character. */
  lemma {:induction false} SpaceRunStops(s: string, k: nat)
    requires k < |s| && !IsJsSpace(s[k])
    ensures SpaceRun(s) <= k
  {
    if k > 0 && IsJsSpace(s[0]) {
      SpaceRunStops(s[1..], k - 1);
    }
  }

  /** How many whitespace characters s starts with. */
  function LeadingSpace(lang: Lang, s: string): (k: nat)
    ensures k <= |s|
    ensures AllSpace(lang, s[..k])
    ensures k == |s| || !IsSpace(lang, s[k])
  {
    if s == [] || !IsSpace(lang, s[0]) then 0
    else
      var k := 1 + LeadingSpace(lang, s[1..]);
      assert s[..k] == [s[0]] + s[1..][..k - 1];
      k
  }

  /** How many whitespace characters s ends with. */
  function TrailingSpace(lang: Lang, s: string): (k: nat)
    ensures k <= |s|
    ensures AllSpace(lang, s[|s| - k..])
    ensures k == |s| || !IsSpace(lang, s[|s| - k - 1])
  {
    if s == [] || !IsSpace(lang, s[|s| - 1]) then 0
    else
      var init := s[..|s| - 1];
      var k := 1 + TrailingSpace(lang, init);
      assert s[|s| - k..] == init[|init| - (k - 1)..] + [s[|s| - 1]];
      k
  }

  /** s with its leading whitespace removed (what parseInt skips). */
  function StripStart(lang: Lang, s: string): (r: string)
    ensures r == [] || !IsSpace(lang, r[0])
  {
    s[LeadingSpace(lang, s)..]
  }

  /** Python's str.strip() (lang == Py) or JavaScript's String.prototype.trim() (lang == Js):
      the middle part of s, with only whitespace cut from either end (StripSlice). */
  function Strip(lang: Lang, s: string): (r: string)
    ensures |r| <= |s|
    ensures r == [] || (!IsSpace(lang, r[0]) && !IsSpace(lang, r[|r| - 1]))
  {
    var t := StripStart(lang, s);
    t[..|t| - TrailingSpace(lang, t)]
  }

  /** Where the stripped text starts in s. */
  function StripOffset(lang: Lang, s: string): (i: nat)
    ensures i + |Strip(lang, s)| <= |s|
  {
    LeadingSpace(lang, s)
  }

  /** The stripped text is the slice of s at StripOffset, and only whitespace lies
      before and after it. */
  lemma StripSlice(lang: Lang, s: string)
    ensures var r := Strip(lang, s);
            var i := StripOffset(lang, s);
            && r == s[i..i + |r|] && AllSpace(lang, s[..i]) && AllSpace(lang, s[i + |r|..])
  {
    var i := LeadingSpace(lang, s);
    var t := s[i..];
    var k := TrailingSpace(lang, t);
    var m := |t| - k;
    assert Strip(lang, s) == t[..m] && StripOffset(lang, s) == i;
    assert t[..m] == s[i..i + m] by { SliceOfSlice(s, i, m); }
    assert AllSpace(lang, s[i + m..]) by {
      SliceOfSlice(s, i, m);
      assert s[i + m..] == t[|t| - k..];
    }
  }

  /** Text with no whitespace at either end is its own strip. */
  lemma StripUnchanged(lang: Lang, s: string)
    requires s != [] && !IsSpace(lang, s[0]) && !IsSpace(lang, s[|s| - 1])
    ensures Strip(lang, s) == s
  {
    assert LeadingSpace(lang, s) == 0;
    assert s[0..] == s;
    assert TrailingSpace(lang, s) == 0;
  }

  lemma SliceOfSlice<T>(s: seq<T>, i: nat, m: nat)
    requires i + m <= |s|
    ensures s[i..][..m] == s[i..i + m] && s[i..][m..] == s[i + m..]
  {
  }

  lemma MultisetSnoc<T>(s: seq<T>)
    requires s != []
    ensures multiset(s) == multiset(s[..|s| - 1]) + multiset{s[|s| - 1]}
  {
    assert s == s[..|s| - 1] + [s[|s| - 1]];
  }

  function LowerChar(c: char): (d: char)
    ensures !IsAsciiUpper(d)
    ensures IsAsciiUpper(c) || d == c
  {
    if IsAsciiUpper(c) then (c as int + 32) as char else c
  }

  /** str.lower() / String.prototype.toLowerCase(), on the ASCII letters. */
  function Lower(s: string): (r: string)
    ensures |r| == |s|
    ensures forall i :: 0 <= i < |s| ==> r[i] == LowerChar(s[i])
  {
    seq(|s|, i requires 0 <= i < |s| => LowerChar(s[i]))
  }

  lemma LowerIdempotent(s: string)
    ensures Lower(Lower(s)) == Lower(s)
  {
  }

  predicate StartsWith(s: string, p: string) {
    |p| <= |s| && s[..|p|] == p
  }

  predicate EndsWith(s: string, p: string) {
    |p| <= |s| && s[|s| - |p|..] == p
  }

  /** Substring test: Python's `sub in s`, JavaScript's s.includes(sub). */
  predicate Contains(s: string, sub: string) {
    exists i :: 0 <= i <= |s| - |sub| && OccursAt(s, sub, i)
  }

  predicate OccursAt(s: string, sub: string, i: int) {
    0 <= i <= |s| - |sub| && s[i..i + |sub|] == sub
  }

  /** Position of the first occurrence of c in s. */
  function IndexOf<T(==)>(s: seq<T>, c: T): (i: nat)
    requires c in s
    ensures i < |s| && s[i] == c && c !in s[..i]
  {
    if s[0] == c then 0 else 1 + IndexOf(s[1..], c)
  }

  function Join(parts: seq<string>, sep: char): string
    requires |parts| >= 1
  {
    if |parts| == 1 then parts[0] else parts[0] + [sep] + Join(parts[1..], sep)
  }

  /** Python's sep.join(parts) / JavaScript's parts.join(sep). */
  function JoinWith(parts: seq<string>, sep: string): string {
    if parts == [] then "" else if |parts| == 1 then parts[0] else parts[0] + sep + JoinWith(parts[1..], sep)
  }

  /** str.split(sep) / String.prototype.split(sep) for a one-character separator:
      the pieces between separators, which joined back give s. */
  function Split(s: string, sep: char): (parts: seq<string>)
    ensures |parts| >= 1
    ensures forall k :: 0 <= k < |parts| ==> sep !in parts[k]
    ensures Join(parts, sep) == s
    decreases |s|
  {
    if sep !in s then [s]
    else
      var i := IndexOf(s, sep);
      var rest := Split(s[i + 1..], sep);
      var parts := [s[..i]] + rest;
      assert parts[1..] == rest;
      assert s == s[..i] + [sep] + s[i + 1..];
      parts
  }

  /** The text before the first sep (all of s when there is none): `s.split(sep)[0]`. */
  function FirstPiece(s: string, sep: char): (r: string)
    ensures r == Split(s, sep)[0]
    ensures sep !in r && (r == s || (|r| < |s| && s[|r|] == sep && s[..|r|] == r))
  {
    if sep !in s then s else s[..IndexOf(s, sep)]
  }

  /** a is b with some elements dropped, the rest kept in order. */
  predicate IsSubsequence<T(==)>(a: seq<T>, b: seq<T>)
    decreases |b|
  {
    a == [] || (b != [] && ((a[0] == b[0] && IsSubsequence(a[1..], b[1..])) || IsSubsequence(a, b[1..])))
  }

  lemma {:induction false} SubsequenceReflexive<T>(s: seq<T>)
    ensures IsSubsequence(s, s)
  {
    if s != [] {
      SubsequenceReflexive(s[1..]);
    }
  }

  lemma {:induction false} SubsequenceTransitive<T>(a: seq<T>, b: seq<T>, c: seq<T>)
    requires IsSubsequence(a, b) && IsSubsequence(b, c)
    ensures IsSubsequence(a, c)
    decreases |c|
  {
    if a != [] {
      assert b != [] && c != [];
      if b[0] == c[0] && IsSubsequence(b[1..], c[1..]) {
        if a[0] == b[0] && IsSubsequence(a[1..], b[1..]) {
          SubsequenceTransitive(a[1..], b[1..], c[1..]);
        } else {
          SubsequenceTransitive(a, b[1..], c[1..]);
        }
      } else {
        SubsequenceTransitive(a, b, c[1..]);
      }
    }
  }

  /** Array.prototype.filter: the elements that pass, in their order. */
  function Filter<T(==,!new)>(s: seq<T>, keep: T -> bool): (r: seq<T>)
    ensures |r| <= |s|
    ensures forall i :: 0 <= i < |r| ==> keep(r[i])
    ensures forall x :: x in r <==> x in s && keep(x)
    ensures IsSubsequence(r, s)
  {
    if s == [] then []
    else if keep(s[0]) then [s[0]] + Filter(s[1..], keep)
    else Filter(s[1..], keep)
  }

  /** A prefix of a prefix is a prefix, and it keeps the elements it holds. */
  lemma PrefixOfPrefix<T>(s: seq<T>, n: nat, m: nat)
    requires m <= n <= |s|
    ensures s[..n][..m] == s[..m]
    ensures forall i :: 0 <= i < m ==> s[..m][i] == s[i]
  {
  }

  /** A sequence one longer than y that agrees with y and ends in z is y + [z]. */
  lemma SnocByIndex<T>(x: seq<T>, y: seq<T>, z: T)
    requires |x| == |y| + 1 && x[|y|] == z
    requires forall i :: 0 <= i < |y| ==> x[i] == y[i]
    ensures x == y + [z]
  {
  }

  lemma AppendAssoc<T>(x: seq<T>, y: seq<T>, z: seq<T>)
    ensures (x + y) + z == x + (y + z)
  {
  }

  /** Filtering distributes over concatenation. */
  lemma {:induction false} FilterAppend<T(!new)>(a: seq<T>, b: seq<T>, keep: T -> bool)
    ensures Filter(a + b, keep) == Filter(a, keep) + Filter(b, keep)
    decreases a
  {
    if a == [] {
      assert a + b == b;
    } else {
      assert (a + b)[0] == a[0];
      assert (a + b)[1..] == a[1..] + b;
      FilterAppend(a[1..], b, keep);
    }
  }

  /** Filtering twice is filtering once by both tests. */
  lemma {:induction false} FilterOfFilter<T(!new)>(s: seq<T>, p: T -> bool, q: T -> bool, both: T -> bool)
    requires forall x :: both(x) == (p(x) && q(x))
    ensures Filter(Filter(s, p), q) == Filter(s, both)
    decreases s
  {
    if s != [] {
      FilterOfFilter(s[1..], p, q, both);
    }
  }

  /** Normalises an index the way JavaScript's slice does: negatives count from the end. */
  function SliceIndex(i: int, len: nat): (r: nat)
    ensures r <= len
    ensures 0 <= i <= len ==> r == i
  {
    if i < 0 then (if len + i < 0 then 0 else len + i) else if i > len then len else i
  }

  /** Array.prototype.slice / String.prototype.slice. */
  function JsSlice<T>(s: seq<T>, start: int, end: int): (r: seq<T>)
    ensures 0 <= start <= end <= |s| ==> r == s[start..end]
  {
    var a := SliceIndex(start, |s|);
    var b := SliceIndex(end, |s|);
    if a < b then s[a..b] else []
  }

  function DigitChar(d: nat): (c: char)
    requires d < 10
    ensures IsAsciiDigit(c)
  {
    ('0' as int + d) as char
  }

  /** The decimal rendering of n (String(n) / str(n) for a non-negative integer). */
  function NatToString(n: nat): (s: string)
    ensures |s| >= 1
    ensures forall i :: 0 <= i < |s| ==> IsAsciiDigit(s[i])
  {
    if n < 10 then [DigitChar(n)] else NatToString(n / 10) + [DigitChar(n % 10)]
  }

  /** The value of a run of decimal digits. */
  function DigitsValue(s: string): nat
    requires forall i :: 0 <= i < |s| ==> IsAsciiDigit(s[i])
  {
    if s == [] then 0
    else
      assert IsAsciiDigit(s[|s| - 1]);
      DigitsValue(s[..|s| - 1]) * 10 + (s[|s| - 1] as int - '0' as int)
  }

  /** Length of the longest prefix of s made of decimal digits. */
  function DigitRun(s: string): (k: nat)
    ensures k <= |s|
    ensures forall i :: 0 <= i < k ==> IsAsciiDigit(s[i])
    ensures k == |s| || !IsAsciiDigit(s[k])
  {
    if s == [] || !IsAsciiDigit(s[0]) then 0 else 1 + DigitRun(s[1..])
  }

  lemma {:induction false} DigitsValueOfNatToString(n: nat)
    ensures DigitsValue(NatToString(n)) == n
  {
    if n >= 10 {
      DigitsValueOfNatToString(n / 10);
      var s := NatToString(n);
      assert s[..|s| - 1] == NatToString(n / 10);
    }
  }

  /** JavaScript's parseInt(s, 10) on integer text: leading whitespace is skipped, an optional
      sign is read, then the longest run of digits; no digit at all gives NaN (None). */
  function ParseIntJs(s: string): (r: Option<int>)
    ensures r.None? <==> DigitRun(SignlessPart(StripStart(Js, s))) == 0
  {
    var t := StripStart(Js, s);
    var rest := SignlessPart(t);
    var k := DigitRun(rest);
    if k == 0 then None
    else if |t| > 0 && t[0] == '-' then Some(-(DigitsValue(rest[..k]) as int))
    else Some(DigitsValue(rest[..k]))
  }

  function SignlessPart(t: string): string {
    if |t| > 0 && (t[0] == '-' || t[0] == '+') then t[1..] else t
  }

  lemma {:induction false} ParseIntJsOfNatToString(n: nat)
    ensures ParseIntJs(NatToString(n)) == Some(n)
  {
    var s := NatToString(n);
    assert !IsJsSpace(s[0]);
    assert StripStart(Js, s) == s;
    assert SignlessPart(s) == s;
    DigitRunAll(s);
    assert s[..|s|] == s;
    DigitsValueOfNatToString(n);
  }

  lemma {:induction false} DigitRunAll(s: string)
    requires forall i :: 0 <= i < |s| ==> IsAsciiDigit(s[i])
    ensures DigitRun(s) == |s|
  {
    if s != [] {
      DigitRunAll(s[1..]);
    }
  }

  /** The UTF-16 code units of a string, as `charCodeAt` reads them: a character outside
      the basic plane is a surrogate pair. */
  function CodeUnits(s: string): (u: seq<nat>)
    ensures |u| >= |s|
    ensures forall k :: 0 <= k < |u| ==> u[k] < 0x1_0000
  {
    if s == [] then []
    else
      var c := s[|s| - 1] as int;
      CodeUnits(s[..|s| - 1]) +
        if c < 0x1_0000 then [c]
        else [0xD800 + (c - 0x1_0000) / 0x400, 0xDC00 + (c - 0x1_0000) % 0x400]
  }
}
