/**
 * The registration and login input rules: string lengths, the role enum
 * with its default, and the confirm-password refinement. The e-mail check is
 * the validation library's own and is taken as a parameter.
 */
module Schema {
  import opened Wrappers

  /** One validation issue: the field it is about and the message shown. */
  datatype Issue = Issue(path: string, message: string)

  /** The two account roles. */
  datatype Role = Student | Teacher

  /** The role as it is stored and carried in tokens. */
  function RoleName(r: Role): string {
    match r
    case Student => "STUDENT"
    case Teacher => "TEACHER"
  }

  /** The enum `["STUDENT", "TEACHER"]`: the role a string names, if any. */
  function ParseRole(s: string): (r: Option<Role>)
    ensures r.Some? ==> RoleName(r.value) == s
    ensures r.None? ==> s != "STUDENT" && s != "TEACHER"
  {
    if s == "STUDENT" then Some(Student)
    else if s == "TEACHER" then Some(Teacher)
    else None
  }

  /** The length JavaScript reports for a string: characters outside the
      Basic Multilingual Plane take two UTF-16 code units. */
  function Utf16Length(s: string): (n: nat)
    ensures n >= |s|
    ensures n == 0 <==> s == []
  {
    if s == [] then 0 else (if s[0] as int > 0xFFFF then 2 else 1) + Utf16Length(s[1..])
  }

  const EmailMessage := "รูปแบบอีเมลไม่ถูกต้อง"
  const PasswordMessage := "รหัสผ่านต้องมีอย่างน้อย 6 ตัวอักษร"
  const FirstNameMessage := "กรุณากรอกชื่อจริง"
  const LastNameMessage := "กรุณากรอกนามสกุล"
  const ConfirmMessage := "รหัสผ่านไม่ตรงกัน"
  const LoginPasswordMessage := "กรุณากรอกรหัสผ่าน"

  /** The validation library's own message for a value outside an enum. */
  function RoleMessage(received: string): string {
    "Invalid enum value. Expected 'STUDENT' | 'TEACHER', received '" + received + "'"
  }

  /** Minimum password length on registration. */
  const MinPasswordLength: nat := 6

  /** The registration body. A missing `role` or `confirmPassword` is `None`. */
  datatype RegisterInput = RegisterInput(
    email: string, password: string, firstName: string, lastName: string,
    role: Option<string>, confirmPassword: Option<string>)

  /** The registration data once it has passed the rules. */
  datatype NewUser = NewUser(
    email: string, password: string, firstName: string, lastName: string,
    role: Role, confirmPassword: Option<string>)

  /** The login body. */
  datatype LoginInput = LoginInput(email: string, password: string)

  /** The role field passes the enum: absent, or one of the two names. */
  predicate RoleAccepted(role: Option<string>) {
    role.None? || ParseRole(role.value).Some?
  }

  /** The refinement: no confirmation (absent or empty), or one equal to
      the password. */
  predicate ConfirmAccepted(input: RegisterInput) {
    input.confirmPassword.None? || input.confirmPassword.value == "" ||
    input.confirmPassword.value == input.password
  }

  /** `Some` issue when the check fails, nothing when it passes. */
  function IssueIf(fails: bool, path: string, message: string): seq<Issue> {
    if fails then [Issue(path, message)] else []
  }

  /** Whether some issue is reported on `path`. */
  predicate HasIssueOn(issues: seq<Issue>, path: string) {
    exists i :: 0 <= i < |issues| && issues[i].path == path
  }

  /** The issues of the registration rules, field by field in declaration
      order. An invalid role ends parsing of the object, so the refinement
      is checked only when the role passes. */
  function RegisterIssues(isEmail: string -> bool, input: RegisterInput): seq<Issue> {
    IssueIf(!isEmail(input.email), "email", EmailMessage) +
    IssueIf(Utf16Length(input.password) < MinPasswordLength, "password", PasswordMessage) +
    IssueIf(Utf16Length(input.firstName) < 1, "firstName", FirstNameMessage) +
    IssueIf(Utf16Length(input.lastName) < 1, "lastName", LastNameMessage) +
    IssueIf(!RoleAccepted(input.role), "role", RoleMessage(if input.role.Some? then input.role.value else "")) +
    IssueIf(RoleAccepted(input.role) && !ConfirmAccepted(input), "confirmPassword", ConfirmMessage)
  }

  /** `insertUserSchema.parse(body)`. It succeeds exactly when every rule
      passes, and then carries the fields over with the role defaulting to
      `STUDENT`. When it fails, every broken rule is reported on its own
      field and no other field gets an issue. */
  function ParseRegister(isEmail: string -> bool, input: RegisterInput): (r: Result<NewUser, seq<Issue>>)
    ensures r.Ok? <==>
      isEmail(input.email) && Utf16Length(input.password) >= MinPasswordLength &&
      input.firstName != [] && input.lastName != [] &&
      RoleAccepted(input.role) && ConfirmAccepted(input)
    ensures r.Ok? ==>
      r.value.email == input.email && r.value.password == input.password &&
      r.value.firstName == input.firstName && r.value.lastName == input.lastName &&
      r.value.confirmPassword == input.confirmPassword &&
      (input.role.None? ==> r.value.role == Student) &&
      (input.role.Some? ==> RoleName(r.value.role) == input.role.value)
    ensures r.Err? ==> r.error != []
    ensures r.Err? ==> forall p :: HasIssueOn(r.error, p) <==> RegisterRuleFails(isEmail, input, p)
  {
    var issues := RegisterIssues(isEmail, input);
    RegisterIssuesEmpty(isEmail, input);
    assert forall p :: HasIssueOn(issues, p) <==> RegisterRuleFails(isEmail, input, p) by {
      forall p ensures HasIssueOn(issues, p) <==> RegisterRuleFails(isEmail, input, p) {
        RegisterIssueOnField(isEmail, input, p);
      }
    }
    if issues == [] then
      var role := if input.role.None? then Student else ParseRole(input.role.value).value;
      Ok(NewUser(input.email, input.password, input.firstName, input.lastName, role, input.confirmPassword))
    else Err(issues)
  }

  /** The registration rule of field `path` fails (no field, no rule). */
  predicate RegisterRuleFails(isEmail: string -> bool, input: RegisterInput, path: string) {
    if path == "email" then !isEmail(input.email)
    else if path == "password" then Utf16Length(input.password) < MinPasswordLength
    else if path == "firstName" then input.firstName == []
    else if path == "lastName" then input.lastName == []
    else if path == "role" then !RoleAccepted(input.role)
    else if path == "confirmPassword" then RoleAccepted(input.role) && !ConfirmAccepted(input)
    else false
  }

  /** No issue at all exactly when every registration rule passes. */
  lemma RegisterIssuesEmpty(isEmail: string -> bool, input: RegisterInput)
    ensures RegisterIssues(isEmail, input) == [] <==>
      isEmail(input.email) && Utf16Length(input.password) >= MinPasswordLength &&
      input.firstName != [] && input.lastName != [] &&
      RoleAccepted(input.role) && ConfirmAccepted(input)
  {
  }

  /** A field carries an issue exactly when its own rule fails. */
  lemma RegisterIssueOnField(isEmail: string -> bool, input: RegisterInput, path: string)
    ensures HasIssueOn(RegisterIssues(isEmail, input), path) <==> RegisterRuleFails(isEmail, input, path)
  {
    var bE := !isEmail(input.email);
    var bP := Utf16Length(input.password) < MinPasswordLength;
    var bF := Utf16Length(input.firstName) < 1;
    var bL := Utf16Length(input.lastName) < 1;
    var bR := !RoleAccepted(input.role);
    var bC := RoleAccepted(input.role) && !ConfirmAccepted(input);
    var mR := RoleMessage(if input.role.Some? then input.role.value else "");
    ChecksOnPath(bE, bP, bF, bL, bR, bC, EmailMessage, PasswordMessage, FirstNameMessage,
                 LastNameMessage, mR, ConfirmMessage, path);
    FieldChoice(bE, bP, bF, bL, bR, bC, path);
  }

  /** The check failing on `p`, read as a choice among the six fields. */
  lemma FieldChoice(bE: bool, bP: bool, bF: bool, bL: bool, bR: bool, bC: bool, p: string)
    ensures ((bE && p == "email") || (bP && p == "password") || (bF && p == "firstName") ||
             (bL && p == "lastName") || (bR && p == "role") || (bC && p == "confirmPassword")) <==>
      if p == "email" then bE
      else if p == "password" then bP
      else if p == "firstName" then bF
      else if p == "lastName" then bL
      else if p == "role" then bR
      else if p == "confirmPassword" then bC
      else false
  {
  }

  /** The six registration checks put an issue on `p` exactly when the check
      of that field fails, whatever the messages. */
  lemma ChecksOnPath(bE: bool, bP: bool, bF: bool, bL: bool, bR: bool, bC: bool,
                     mE: string, mP: string, mF: string, mL: string, mR: string, mC: string,
                     p: string)
    ensures HasIssueOn(IssueIf(bE, "email", mE) + IssueIf(bP, "password", mP) +
                       IssueIf(bF, "firstName", mF) + IssueIf(bL, "lastName", mL) +
                       IssueIf(bR, "role", mR) + IssueIf(bC, "confirmPassword", mC), p) <==>
      (bE && p == "email") || (bP && p == "password") || (bF && p == "firstName") ||
      (bL && p == "lastName") || (bR && p == "role") || (bC && p == "confirmPassword")
  {
    IssueIfOn(bE, "email", mE, p);
    IssueIfOn(bP, "password", mP, p);
    IssueIfOn(bF, "firstName", mF, p);
    IssueIfOn(bL, "lastName", mL, p);
    IssueIfOn(bR, "role", mR, p);
    IssueIfOn(bC, "confirmPassword", mC, p);
    HasIssueOnSix(IssueIf(bE, "email", mE), IssueIf(bP, "password", mP),
                  IssueIf(bF, "firstName", mF), IssueIf(bL, "lastName", mL),
                  IssueIf(bR, "role", mR), IssueIf(bC, "confirmPassword", mC), p);
  }

  /** An issue is on a path of six concatenated lists exactly when it is on
      that path in one of them. */
  lemma HasIssueOnSix(a: seq<Issue>, b: seq<Issue>, c: seq<Issue>, d: seq<Issue>,
                      e: seq<Issue>, f: seq<Issue>, p: string)
    ensures HasIssueOn(a + b + c + d + e + f, p) <==>
      HasIssueOn(a, p) || HasIssueOn(b, p) || HasIssueOn(c, p) ||
      HasIssueOn(d, p) || HasIssueOn(e, p) || HasIssueOn(f, p)
  {
    HasIssueOnAppend(a, b, p);
    HasIssueOnAppend(a + b, c, p);
    HasIssueOnAppend(a + b + c, d, p);
    HasIssueOnAppend(a + b + c + d, e, p);
    HasIssueOnAppend(a + b + c + d + e, f, p);
  }

  /** An issue is on a path of a concatenation exactly when it is on that
      path in one of the two parts. */
  lemma HasIssueOnAppend(a: seq<Issue>, b: seq<Issue>, p: string)
    ensures HasIssueOn(a + b, p) <==> HasIssueOn(a, p) || HasIssueOn(b, p)
  {
    if HasIssueOn(a + b, p) {
      var i :| 0 <= i < |a + b| && (a + b)[i].path == p;
      if i >= |a| {
        assert b[i - |a|].path == p;
      }
    }
    if HasIssueOn(a, p) {
      var i :| 0 <= i < |a| && a[i].path == p;
      assert (a + b)[i] == a[i];
    }
    if HasIssueOn(b, p) {
      var i :| 0 <= i < |b| && b[i].path == p;
      assert (a + b)[|a| + i] == b[i];
    }
  }

  /** The issue of one check lies on its own path and only when it fails. */
  lemma IssueIfOn(fails: bool, path: string, message: string, p: string)
    ensures HasIssueOn(IssueIf(fails, path, message), p) <==> fails && p == path
  {
    if fails {
      assert IssueIf(fails, path, message)[0].path == path;
    }
  }

  /** A whitespace-only name is accepted: the name rules count characters
      and do not trim. */
  lemma BlankNamesAccepted(isEmail: string -> bool, input: RegisterInput)
    requires isEmail(input.email) && |input.password| >= MinPasswordLength
    requires input.firstName == " " && input.lastName == " "
    requires input.role.None? && input.confirmPassword.None?
    ensures ParseRegister(isEmail, input).Ok?
  {
    assert Utf16Length(input.password) >= |input.password|;
  }

  /** An address the e-mail check refuses fails both schemas, whatever the
      other fields hold. */
  lemma BadEmailRejected(isEmail: string -> bool, input: RegisterInput, login: LoginInput)
    requires !isEmail(input.email) && login.email == input.email
    ensures ParseRegister(isEmail, input).Err?
    ensures ParseLogin(isEmail, login).Err?
  {
  }

  /** The issues of the login rules. */
  function LoginIssues(isEmail: string -> bool, input: LoginInput): seq<Issue> {
    IssueIf(!isEmail(input.email), "email", EmailMessage) +
    IssueIf(Utf16Length(input.password) < 1, "password", LoginPasswordMessage)
  }

  /** `loginSchema.parse(body)`: a valid e-mail and any non-empty password.
      A rejected input names exactly the failing fields. */
  function ParseLogin(isEmail: string -> bool, input: LoginInput): (r: Result<LoginInput, seq<Issue>>)
    ensures r.Ok? <==> isEmail(input.email) && input.password != []
    ensures r.Ok? ==> r.value == input
    ensures r.Err? ==> r.error != []
    ensures r.Err? ==> (HasIssueOn(r.error, "email") <==> !isEmail(input.email))
    ensures r.Err? ==> (HasIssueOn(r.error, "password") <==> input.password == [])
  {
    var issues := LoginIssues(isEmail, input);
    assert !isEmail(input.email) ==> issues[0].path == "email";
    assert input.password == [] ==> issues[|issues| - 1].path == "password";
    if issues == [] then Ok(input) else Err(issues)
  }

  /** A password of one character logs in as far as the rules go, while
      registration asks for six. */
  lemma LoginLooserThanRegister(isEmail: string -> bool, input: RegisterInput)
    requires isEmail(input.email) && input.password != []
    ensures ParseLogin(isEmail, LoginInput(input.email, input.password)).Ok?
    ensures ParseRegister(isEmail, input).Ok? ==> Utf16Length(input.password) >= MinPasswordLength
  {
  }
}
