/** The input checks of the tenant admin views: hex colours, image URLs,
    string sanitising and the tenant-id format, each on JSON request values.
    A check applied to a value of the wrong JSON type raises in Python; that
    escapes the view and becomes a server error (`Crash`). */
module TenantValidation {
  import opened Common
  import opened JsonData

  datatype Check = Pass | Fail | Crash

  /** `re.match("^…$", s)` for a pattern whose characters never include a newline:
      Python's `$` also matches just before a final "\n", so the pattern may match s
      itself or s without its trailing newline. */
  predicate PyAnchoredMatch(full: string -> bool, s: string) {
    full(s) || (|s| > 0 && s[|s| - 1] == '\n' && full(s[..|s| - 1]))
  }

  /** "#" followed by exactly six hex digits, and nothing else. */
  predicate IsHexColor(s: string) {
    |s| == 7 && s[0] == '#' && forall k :: 1 <= k < 7 ==> IsHexDigit(s[k])
  }

  /** The hex-colour regular expression as the views apply it. */
  predicate HexColorAsWritten(s: string) {
    PyAnchoredMatch(IsHexColor, s)
  }

  /** As written, a colour followed by a newline passes. */
  lemma HexColorAcceptsTrailingNewline()
    ensures HexColorAsWritten("#1976d2\n") && !IsHexColor("#1976d2\n")
  {
    assert "#1976d2\n"[..7] == "#1976d2";
  }

  /** The corrected check differs from the written one exactly on colours with a
      trailing newline. */
  lemma HexColorAsWrittenDiffers(s: string)
    ensures HexColorAsWritten(s) <==> IsHexColor(s) || (|s| == 8 && s[7] == '\n' && IsHexColor(s[..7]))
    ensures IsHexColor(s) ==> HexColorAsWritten(s)
  {
  }

  /** The hex-colour check on a request value (with the corrected pattern). */
  function ValidateHexColor(v: Json): (c: Check)
    ensures c == Crash <==> !v.JStr?
    ensures c == Pass <==> v.JStr? && |v.s| == 7 && v.s[0] == '#' && (forall k :: 1 <= k < 7 ==> IsHexDigit(v.s[k]))
  {
    if !v.JStr? then Crash else if IsHexColor(v.s) then Pass else Fail
  }

  /** The image-URL check: no URL, an empty one, a site-relative path or an http(s) URL. */
  function ValidateUrl(v: Json): (c: Check)
    ensures c == Crash <==> !(v.JNull? || v.JStr?)
    ensures c == Pass <==> v.JNull? || (v.JStr? && (v.s == "" || StartsWith(v.s, "/")
                                                   || StartsWith(v.s, "http://") || StartsWith(v.s, "https://")))
  {
    match v
    case JNull => Pass
    case JStr(s) =>
      if s == "" || StartsWith(s, "/") || StartsWith(s, "http://") || StartsWith(s, "https://") then Pass else Fail
    case _ => Crash
  }

  /** `s[:n]`. */
  function Take(s: string, n: nat): (r: string)
    ensures |r| == if |s| <= n then |s| else n
    ensures r <= s
  {
    if |s| <= n then s else s[..n]
  }

  /** String sanitising: None for anything but a string, else the stripped string cut
      to at most maxLength characters. */
  function Sanitize(v: Json, maxLength: nat): (r: Option<string>)
    ensures r.Some? <==> v.JStr?
    ensures r.Some? ==> |r.value| <= maxLength && r.value <= Strip(Py, v.s)
    ensures r.Some? && |Strip(Py, v.s)| <= maxLength ==> r.value == Strip(Py, v.s)
    ensures r.Some? && r.value != [] ==> !IsSpace(Py, r.value[0])
  {
    if v.JStr? then
      var t := Strip(Py, v.s);
      var r := Take(t, maxLength);
      assert r != [] ==> r[0] == t[0];
      Some(r)
    else None
  }

  predicate IsLowerAlnum(c: char) { IsAsciiLower(c) || IsAsciiDigit(c) }

  /** The full-string form of `[a-z0-9][a-z0-9-]*[a-z0-9]`. */
  predicate HyphenatedId(s: string) {
    |s| >= 2 && IsLowerAlnum(s[0]) && IsLowerAlnum(s[|s| - 1])
    && forall k :: 0 < k < |s| - 1 ==> IsLowerAlnum(s[k]) || s[k] == '-'
  }

  /** The full-string form of `[a-z0-9]+`. */
  predicate PlainId(s: string) {
    |s| >= 1 && forall k :: 0 <= k < |s| ==> IsLowerAlnum(s[k])
  }

  /** The tenant-id check of tenant creation as written: it rejects only when the id
      fails the hyphenated pattern, is longer than two characters and fails the plain
      pattern, all with Python's `$`. */
  predicate TenantIdAcceptedAsWritten(s: string) {
    !(!PyAnchoredMatch(HyphenatedId, s) && |s| > 2 && !PyAnchoredMatch(PlainId, s))
  }

  /** The intended format: lower-case letters, digits and hyphens, starting and ending
      with a letter or digit. */
  predicate IsValidTenantId(s: string) {
    HyphenatedId(s) || PlainId(s)
  }

  /** As written, short ids are never checked and a trailing newline is let through. */
  lemma TenantIdCheckGaps()
    ensures TenantIdAcceptedAsWritten("A_") && !IsValidTenantId("A_")
    ensures TenantIdAcceptedAsWritten("abc\n") && !IsValidTenantId("abc\n")
  {
    assert !IsLowerAlnum("A_"[0]);
    assert "abc\n"[..3] == "abc";
    assert HyphenatedId("abc");
    assert !IsLowerAlnum("abc\n"[3]);
  }

  /** The intended format, character by character. */
  lemma ValidTenantIdCharacters(s: string)
    ensures IsValidTenantId(s) <==>
            |s| >= 1 && IsLowerAlnum(s[0]) && IsLowerAlnum(s[|s| - 1])
            && forall k :: 0 <= k < |s| ==> IsLowerAlnum(s[k]) || s[k] == '-'
  {
  }

  /** Away from the two gaps (ids of at most two characters, a final newline) the check
      as written is the intended one. */
  lemma TenantIdCheckAgreesOtherwise(s: string)
    requires |s| > 2 && s[|s| - 1] != '\n'
    ensures TenantIdAcceptedAsWritten(s) <==> IsValidTenantId(s)
  {
  }
}
