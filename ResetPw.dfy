/** The reset-password page: the password rules shown while typing, the confirmation
    check, and which of the two warnings (if any) stops the submission. */
module ResetPw {
  import opened Common

  /** The character classes the page tests with a regular expression each. */
  datatype CharClass = LowerCase | UpperCase | Number | Special

  /** A regular-expression word character: an ASCII letter, digit or underscore. */
  predicate IsWordChar(c: char) { IsAsciiAlnum(c) || c == '_' }

  /** `[a-z]`, `[A-Z]`, `\d` and `[\W_]`. */
  predicate InClass(cls: CharClass, c: char) {
    match cls
    case LowerCase => IsAsciiLower(c)
    case UpperCase => IsAsciiUpper(c)
    case Number => IsAsciiDigit(c)
    case Special => !IsWordChar(c) || c == '_'
  }

  /** `[\W_]` matches exactly the characters that are not ASCII letters or digits. */
  lemma SpecialMeansNotAlnum(c: char)
    ensures InClass(Special, c) <==> !IsAsciiAlnum(c)
  {
  }

  /** An unanchored test of a one-character class: some character of s is in it. */
  function Test(cls: CharClass, s: string): (b: bool)
    ensures b <==> exists i :: 0 <= i < |s| && InClass(cls, s[i])
  {
    if s == [] then false
    else
      var init := s[..|s| - 1];
      var b := Test(cls, init) || InClass(cls, s[|s| - 1]);
      assert forall i :: 0 <= i < |init| ==> init[i] == s[i];
      b
  }

  /** The rules as the page shows them. */
  datatype Validation = Validation(isValid: bool, length: bool, hasLowerCase: bool, hasUpperCase: bool,
                                   hasNumber: bool, hasSpecialChar: bool)

  /** The validation for a password: everything false for the empty one; otherwise
      each rule on its own, and valid when all five hold. The length is JavaScript's,
      in UTF-16 code units. */
  function Validate(password: string): (v: Validation)
    ensures password == [] ==> v == Validation(false, false, false, false, false, false)
    ensures password != [] ==>
              && (v.length <==> |CodeUnits(password)| >= 8)
              && (v.hasLowerCase <==> exists i :: 0 <= i < |password| && IsAsciiLower(password[i]))
              && (v.hasUpperCase <==> exists i :: 0 <= i < |password| && IsAsciiUpper(password[i]))
              && (v.hasNumber <==> exists i :: 0 <= i < |password| && IsAsciiDigit(password[i]))
              && (v.hasSpecialChar <==> exists i :: 0 <= i < |password| && !IsAsciiAlnum(password[i]))
    ensures v.isValid <==> v.length && v.hasLowerCase && v.hasUpperCase && v.hasNumber && v.hasSpecialChar
  {
    if password == [] then Validation(false, false, false, false, false, false)
    else
      var length := |CodeUnits(password)| >= 8;
      var lower := Test(LowerCase, password);
      var upper := Test(UpperCase, password);
      var number := Test(Number, password);
      var special := Test(Special, password);
      Validation(length && lower && upper && number && special, length, lower, upper, number, special)
  }

  /** A password is accepted exactly when it is at least eight code units long and holds
      a lower-case letter, an upper-case letter, a digit and a character that is neither. */
  lemma ValidIff(password: string)
    ensures Validate(password).isValid <==>
              && |CodeUnits(password)| >= 8
              && (exists i :: 0 <= i < |password| && IsAsciiLower(password[i]))
              && (exists i :: 0 <= i < |password| && IsAsciiUpper(password[i]))
              && (exists i :: 0 <= i < |password| && IsAsciiDigit(password[i]))
              && (exists i :: 0 <= i < |password| && !IsAsciiAlnum(password[i]))
  {
  }

  /** Appending a character adds one code unit, or two outside the basic plane. */
  lemma CodeUnitsSnoc(s: string, c: char)
    ensures |CodeUnits(s + [c])| == |CodeUnits(s)| + if c as int < 0x1_0000 then 1 else 2
  {
    assert (s + [c])[..|s + [c]| - 1] == s;
  }

  /** Eight characters always pass the length rule; a character outside the basic plane
      counts twice, so four emoji pass it too. */
  lemma LengthInCodeUnits(password: string)
    requires password != []
    ensures |password| >= 8 ==> Validate(password).length
    ensures password == "\U{1F600}\U{1F600}\U{1F600}\U{1F600}" ==> Validate(password).length
  {
    if password == "\U{1F600}\U{1F600}\U{1F600}\U{1F600}" {
      var e := '\U{1F600}';
      CodeUnitsSnoc([], e);
      assert [] + [e] == [e];
      CodeUnitsSnoc([e], e);
      assert [e] + [e] == [e, e];
      CodeUnitsSnoc([e, e], e);
      assert [e, e] + [e] == [e, e, e];
      CodeUnitsSnoc([e, e, e], e);
      assert password == [e, e, e] + [e];
    }
  }

  /** The confirmation check: nothing to say while the confirmation is empty, otherwise
      whether the two are equal. */
  function PasswordMatch(password: string, confirm: string): (m: Option<bool>)
    ensures m == None <==> confirm == []
    ensures m == Some(true) <==> confirm != [] && confirm == password
  {
    if confirm == [] then None else Some(password == confirm)
  }

  /** What pressing submit does. */
  datatype Outcome = InvalidPassword | NotMatching | Send

  /** handleSubmit: the rules are checked first, then the confirmation (an empty one
      counts as not matching); only then is the request sent. */
  function Submit(password: string, confirm: string): (o: Outcome)
    ensures o == InvalidPassword <==> !Validate(password).isValid
    ensures o == Send <==> Validate(password).isValid && confirm == password
    ensures o == NotMatching <==> Validate(password).isValid && confirm != password
  {
    var v := Validate(password);
    var m := PasswordMatch(password, confirm);
    if !v.isValid then InvalidPassword
    else if m != Some(true) then NotMatching
    else Send
  }

  /** A request is never sent with an empty password or confirmation. */
  lemma SentPasswordsAreNonEmpty(password: string, confirm: string)
    requires Submit(password, confirm) == Send
    ensures |password| > 0 && confirm == password
  {
  }
}
