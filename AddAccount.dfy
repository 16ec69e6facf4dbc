/** The add-account form: the checks run before submission, in their fixed order, the
    payload sent to the account service, and the form after a success or a failure.
    The account service is a parameter: the reply it would give. */
module AddAccount {
  import opened Common

  /** The role every new account gets. */
  const MemberRole := "會員"

  /** The form's fields. */
  datatype Form = Form(handler: string, email: string, department: string, role: string,
                       phone: string, enabled: bool)

  /** The form as the page opens. */
  const InitialForm := Form("", "", "", MemberRole, "", true)

  /** The checks, in the order validate() runs them. */
  datatype Problem =
    | HandlerRequired
    | EmailRequired
    | EmailInvalid
    | DepartmentRequired
    | RoleRequired
    | PhoneRequired
    | PhoneInvalid

  function Rank(p: Problem): nat {
    match p
    case HandlerRequired => 0
    case EmailRequired => 1
    case EmailInvalid => 2
    case DepartmentRequired => 3
    case RoleRequired => 4
    case PhoneRequired => 5
    case PhoneInvalid => 6
  }

  /** The translation key of each problem's message. */
  function MessageKey(p: Problem): string {
    match p
    case HandlerRequired => "addAccount.validation_handler_required"
    case EmailRequired => "addAccount.validation_email_required"
    case EmailInvalid => "addAccount.validation_email_invalid"
    case DepartmentRequired => "addAccount.validation_department_required"
    case RoleRequired => "addAccount.validation_role_required"
    case PhoneRequired => "addAccount.validation_phone_required"
    case PhoneInvalid => "addAccount.validation_phone_invalid"
  }

  /** `/\S+@\S+\.\S+/` matches somewhere in s: a non-space before an `@`, at least one
      non-space between it and a later `.`, and a non-space after that dot. */
  predicate EmailShaped(s: string) {
    exists at, dot {:trigger EmailMatchAt(s, at, dot)} :: 0 <= at < |s| && 0 <= dot < |s| && EmailMatchAt(s, at, dot)
  }

  /** The match with its `@` at `at` and its `.` at `dot`. */
  predicate EmailMatchAt(s: string, at: int, dot: int) {
    1 <= at && at + 1 < dot && dot + 1 < |s| && s[at] == '@' && s[dot] == '.'
    && !IsJsSpace(s[at - 1]) && NoSpaceBetween(s, at, dot) && !IsJsSpace(s[dot + 1])
  }

  predicate NoSpaceBetween(s: string, at: int, dot: int)
    requires 0 <= at < dot <= |s|
  {
    forall k :: at < k < dot ==> !IsJsSpace(s[k])
  }

  /** A character of `[0-9\-+() ]`. */
  predicate IsPhoneChar(c: char) {
    IsAsciiDigit(c) || c == '-' || c == '+' || c == '(' || c == ')' || c == ' '
  }

  /** `/^[0-9\-+() ]{6,20}$/` matches the whole of s. */
  predicate PhoneShaped(s: string) {
    6 <= |s| <= 20 && forall i :: 0 <= i < |s| ==> IsPhoneChar(s[i])
  }

  /** Whether the form fails the given check on its own. */
  predicate Fails(f: Form, p: Problem) {
    match p
    case HandlerRequired => Strip(Js, f.handler) == []
    case EmailRequired => Strip(Js, f.email) == []
    case EmailInvalid => !EmailShaped(f.email)
    case DepartmentRequired => f.department == []
    case RoleRequired => f.role == []
    case PhoneRequired => Strip(Js, f.phone) == []
    case PhoneInvalid => !PhoneShaped(f.phone)
  }

  /** validate(): the checks in order, stopping at the first that fails. */
  function Validate(f: Form): Option<Problem> {
    if Fails(f, HandlerRequired) then Some(HandlerRequired)
    else if Fails(f, EmailRequired) then Some(EmailRequired)
    else if Fails(f, EmailInvalid) then Some(EmailInvalid)
    else if Fails(f, DepartmentRequired) then Some(DepartmentRequired)
    else if Fails(f, RoleRequired) then Some(RoleRequired)
    else if Fails(f, PhoneRequired) then Some(PhoneRequired)
    else if Fails(f, PhoneInvalid) then Some(PhoneInvalid)
    else None
  }

  /** validate() answers nothing exactly when the form passes every check, and otherwise
      the first check it fails. */
  lemma ValidateFindsFirstFailure(f: Form)
    ensures Validate(f) == None <==> forall p :: !Fails(f, p)
    ensures Validate(f).Some? ==>
              Fails(f, Validate(f).value) && forall q :: Rank(q) < Rank(Validate(f).value) ==> !Fails(f, q)
  {
    var r := Validate(f);
    forall q | r == None || Rank(q) < Rank(r.value) ensures !Fails(f, q) {
      match q
      case HandlerRequired =>
      case EmailRequired =>
      case EmailInvalid =>
      case DepartmentRequired =>
      case RoleRequired =>
      case PhoneRequired =>
      case PhoneInvalid =>
    }
  }

  /** The body sent to the account service. */
  datatype Payload = Payload(email: string, undertake: string, hoster: string, role: string,
                             phoneNumber: string, enabled: bool)

  /** The payload: email, handler and phone trimmed, the rest as entered. */
  function PayloadOf(f: Form): Payload {
    Payload(Strip(Js, f.email), f.department, Strip(Js, f.handler), f.role, Strip(Js, f.phone), f.enabled)
  }

  /** Cutting only whitespace from either end keeps a match, shifted. */
  lemma EmailMatchInside(s: string, i: nat, n: nat, at: int, dot: int)
    requires i + n <= |s| && AllSpace(Js, s[..i]) && AllSpace(Js, s[i + n..])
    requires EmailMatchAt(s, at, dot)
    ensures EmailMatchAt(s[i..i + n], at - i, dot - i)
  {
  }

  /** An email that passes the shape test still passes it once trimmed. */
  lemma StripKeepsEmailShape(s: string)
    requires EmailShaped(s)
    ensures EmailShaped(Strip(Js, s))
  {
    var r := Strip(Js, s);
    var i := StripOffset(Js, s);
    StripSlice(Js, s);
    var at, dot :| 0 <= at < |s| && 0 <= dot < |s| && EmailMatchAt(s, at, dot);
    EmailMatchInside(s, i, |r|, at, dot);
  }

  /** Whatever passes validation is sent with a non-blank handler and email, an email of
      the right shape, a department and a role, and a phone number of at most twenty
      characters from the allowed set, neither starting nor ending with a space. */
  lemma PayloadOfValidForm(f: Form)
    requires Validate(f) == None
    ensures var p := PayloadOf(f);
            && p.hoster != [] && p.email != [] && EmailShaped(p.email)
            && p.undertake != [] && p.role != []
            && p.phoneNumber != [] && |p.phoneNumber| <= 20
            && (forall i :: 0 <= i < |p.phoneNumber| ==> IsPhoneChar(p.phoneNumber[i]))
            && p.phoneNumber[0] != ' ' && p.phoneNumber[|p.phoneNumber| - 1] != ' '
  {
    PassesEveryCheck(f);
    ValidEmailSent(f);
    ValidPhoneSent(f);
  }

  lemma PassesEveryCheck(f: Form)
    requires Validate(f) == None
    ensures !Fails(f, HandlerRequired) && !Fails(f, EmailRequired) && !Fails(f, EmailInvalid)
    ensures !Fails(f, DepartmentRequired) && !Fails(f, RoleRequired)
    ensures !Fails(f, PhoneRequired) && !Fails(f, PhoneInvalid)
  {
    assert !Fails(f, HandlerRequired);
    assert !Fails(f, EmailRequired);
    assert !Fails(f, EmailInvalid);
    assert !Fails(f, DepartmentRequired);
    assert !Fails(f, RoleRequired);
    assert !Fails(f, PhoneRequired);
  }

  lemma ValidEmailSent(f: Form)
    requires !Fails(f, EmailInvalid)
    ensures EmailShaped(Strip(Js, f.email))
  {
    StripKeepsEmailShape(f.email);
  }

  lemma ValidPhoneSent(f: Form)
    requires !Fails(f, PhoneInvalid) && !Fails(f, PhoneRequired)
    ensures var r := Strip(Js, f.phone);
            && r != [] && |r| <= 20 && (forall i :: 0 <= i < |r| ==> IsPhoneChar(r[i]))
            && r[0] != ' ' && r[|r| - 1] != ' '
  {
    StripKeepsPhoneChars(f.phone);
    TrimmedEndsNotSpace(f.phone);
  }

  lemma TrimmedEndsNotSpace(s: string)
    requires Strip(Js, s) != []
    ensures var r := Strip(Js, s); r[0] != ' ' && r[|r| - 1] != ' '
  {
  }

  /** Trimming a phone number keeps only allowed characters and never lengthens it. */
  lemma StripKeepsPhoneChars(s: string)
    requires PhoneShaped(s)
    ensures var r := Strip(Js, s);
            |r| <= 20 && forall k :: 0 <= k < |r| ==> IsPhoneChar(r[k])
  {
    StripSlice(Js, s);
    PhoneCharsInside(s, StripOffset(Js, s), Strip(Js, s));
  }

  /** A piece of a string of phone characters holds phone characters only. */
  lemma PhoneCharsInside(s: string, i: nat, t: string)
    requires i + |t| <= |s| && t == s[i..i + |t|] && forall k :: 0 <= k < |s| ==> IsPhoneChar(s[k])
    ensures forall k :: 0 <= k < |t| ==> IsPhoneChar(t[k])
  {
    forall k | 0 <= k < |t| ensures IsPhoneChar(t[k]) {
      assert t[k] == s[i + k];
    }
  }

  /** Trimming can make the phone number shorter than the six characters the check asks for. */
  lemma TrimmedPhoneMayBeShort()
    ensures var f := Form("a", "a@b.c", "d", MemberRole, "  1234  ", true);
            Validate(f) == None && |PayloadOf(f).phoneNumber| == 4
  {
    var f := Form("a", "a@b.c", "d", MemberRole, "  1234  ", true);
    ExampleEmail();
    ExamplePhone();
    assert Strip(Js, f.handler) == "a";
    assert !Fails(f, HandlerRequired);
    assert !Fails(f, EmailRequired);
    assert !Fails(f, EmailInvalid);
    assert !Fails(f, DepartmentRequired);
    assert !Fails(f, RoleRequired);
    assert !Fails(f, PhoneRequired);
    assert !Fails(f, PhoneInvalid);
  }

  lemma ExampleEmail()
    ensures EmailShaped("a@b.c") && Strip(Js, "a@b.c") == "a@b.c"
  {
    var e := "a@b.c";
    assert NoSpaceBetween(e, 1, 3);
    assert EmailMatchAt(e, 1, 3);
    StripUnchanged(Js, e);
  }

  lemma ExamplePhone()
    ensures PhoneShaped("  1234  ") && Strip(Js, "  1234  ") == "1234"
  {
    var p := "  1234  ";
    ExampleLeadingSpace();
    assert StripStart(Js, p) == "1234  ";
    ExampleTrailingSpace();
    assert "1234  "[..4] == "1234";
  }

  lemma ExampleLeadingSpace()
    ensures LeadingSpace(Js, "  1234  ") == 2
  {
    assert !IsJsSpace('1');
    assert "  1234  "[1..] == " 1234  ";
    assert " 1234  "[1..] == "1234  ";
  }

  lemma ExampleTrailingSpace()
    ensures TrailingSpace(Js, "1234  ") == 2
  {
    assert !IsJsSpace('4');
    assert "1234  "[..5] == "1234 ";
    assert "1234 "[..4] == "1234";
  }

  /** The service's answer. */
  datatype Reply = Reply(success: bool, message: string)

  /** The status line: unset, a success or a failure, with its message. */
  datatype Status = Status(ok: Option<bool>, msg: string)

  /** The result of handleSubmit: the new form, the status, and the payload when one was sent. */
  datatype Submitted = Submitted(form: Form, status: Status, sent: Option<Payload>)

  /** handleSubmit: a failed check shows its message and sends nothing; otherwise the
      payload goes out, and on success the form is cleared except for the enabled box,
      while on failure the form stays as it was and the service's message (or the
      generic one when it has none) is shown. */
  function Submit(f: Form, reply: Reply): (r: Submitted)
    ensures Validate(f).Some? ==> r == Submitted(f, Status(Some(false), MessageKey(Validate(f).value)), None)
    ensures Validate(f) == None ==> r.sent == Some(PayloadOf(f))
    ensures Validate(f) == None && reply.success ==>
              r.form == InitialForm.(enabled := f.enabled) && r.status == Status(Some(true), reply.message)
    ensures Validate(f) == None && !reply.success ==>
              r.form == f && r.status.ok == Some(false) && r.status.msg != []
  {
    match Validate(f)
    case Some(p) => Submitted(f, Status(Some(false), MessageKey(p)), None)
    case None =>
      if reply.success then
        Submitted(InitialForm.(enabled := f.enabled), Status(Some(true), reply.message), Some(PayloadOf(f)))
      else
        var msg := if reply.message != [] then reply.message else "addAccount.create_fail";
        Submitted(f, Status(Some(false), msg), Some(PayloadOf(f)))
  }

  /** After a success the cleared form cannot be sent again as it is: the handler is the
      first thing missing. */
  lemma ClearedFormIsRejected(f: Form, reply: Reply)
    requires Validate(f) == None && reply.success
    ensures Validate(Submit(f, reply).form) == Some(HandlerRequired)
    ensures Submit(f, reply).form.enabled == f.enabled
  {
    var g := Submit(f, reply).form;
    assert g == InitialForm.(enabled := f.enabled);
    assert Strip(Js, g.handler) == [];
    assert Fails(g, HandlerRequired);
  }
}
