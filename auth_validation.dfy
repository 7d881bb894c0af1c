/** The request-body schemas of server/validation/authValidation.js:
    signupSchema and loginSchema. Whether a text is an e-mail address is
    yup's own pattern, which is a parameter here (`isEmail`). */
module AuthValidation {
  import opened Text
  import opened FieldErrors
  import opened Requests
  import opened SchemaRules

  datatype SignupBody = SignupBody(name: Value, email: Value, password: Value, role: Value)

  datatype LoginBody = LoginBody(email: Value, password: Value)

  const NameMin := 2
  const NameMax := 100
  const PasswordMin := 6
  const PasswordMax := 100

  const PasswordPatternMessage :=
    "Password must contain at least one uppercase letter, one lowercase letter, and one number"

  /** `string().required().trim().min(2).max(100)`. */
  function NameViolations(v: Value): (r: seq<Violation>)
    ensures r == [] <==> v.Str? && NameMin <= |Trim(v.s)| <= NameMax
    ensures AllAt(r, BodyPath("name"))
  {
    var path := BodyPath("name");
    match v
    case Absent => [Violation(path, "Name is required")]
    case Null => [Violation(path, "Name is required")]
    case Str(s) =>
      var t := Trim(s);
      Check(t != "", path, "Name is required")
      + Check(|t| >= NameMin, path, "Name must be at least 2 characters")
      + Check(|t| <= NameMax, path, "Name must not exceed 100 characters")
  }

  /** The text the email tests see: lower-cased, then trimmed. */
  function NormalEmail(s: string): (r: string)
    ensures |r| <= |s|
    ensures forall i :: 0 <= i < |r| ==> !('A' <= r[i] <= 'Z')
  {
    var l := ToLower(s);
    TrimChars(l);
    assert forall c :: c in l ==> !('A' <= c <= 'Z');
    var r := Trim(l);
    assert forall i :: 0 <= i < |r| ==> r[i] in r;
    r
  }

  /** `string().required().email().lowercase().trim()`; the empty text is
      reported as missing only, since `email()` lets '' through. */
  function EmailViolations(v: Value, isEmail: string -> bool): (r: seq<Violation>)
    ensures r == [] <==> v.Str? && NormalEmail(v.s) != "" && isEmail(NormalEmail(v.s))
    ensures v.Str? && NormalEmail(v.s) == "" ==> r == [Violation(BodyPath("email"), "Email is required")]
    ensures AllAt(r, BodyPath("email"))
  {
    var path := BodyPath("email");
    match v
    case Absent => [Violation(path, "Email is required")]
    case Null => [Violation(path, "Email is required")]
    case Str(s) =>
      var e := NormalEmail(s);
      Check(e != "", path, "Email is required")
      + Check(e == "" || isEmail(e), path, "Valid email is required")
  }

  /** `string().required().min(6).max(100).matches(...)`: the password is
      not trimmed, and needs a lower-case letter, an upper-case letter and a
      digit on a single line. */
  function PasswordViolations(v: Value): (r: seq<Violation>)
    ensures r == [] <==> v.Str? && PasswordMin <= |v.s| <= PasswordMax
                                && HasLowercase(v.s) && HasUppercase(v.s) && HasDigit(v.s)
                                && forall i :: 0 <= i < |v.s| ==> !IsLineTerminator(v.s[i])
    ensures AllAt(r, BodyPath("password"))
  {
    var path := BodyPath("password");
    match v
    case Absent => [Violation(path, "Password is required")]
    case Null => [Violation(path, "Password is required")]
    case Str(s) =>
      Check(s != "", path, "Password is required")
      + Check(|s| >= PasswordMin, path, "Password must be at least 6 characters")
      + Check(|s| <= PasswordMax, path, "Password must not exceed 100 characters")
      + Check(MatchesPasswordPattern(s), path, PasswordPatternMessage)
  }

  /** `string().oneOf(['user', 'admin']).default('user')`. */
  function RoleViolations(v: Value): (r: seq<Violation>)
    ensures r == [] <==> v.Absent? || v == Str("user") || v == Str("admin")
    ensures AllAt(r, BodyPath("role"))
  {
    var path := BodyPath("role");
    match v
    case Absent => []
    case Null => [Violation(path, NotNullMessage(path))]
    case Str(s) => Check(s == "user" || s == "admin", path, "Invalid role")
  }

  function SignupViolations(b: SignupBody, isEmail: string -> bool): (r: seq<Violation>)
    ensures r == [] <==>
      && NameViolations(b.name) == [] && EmailViolations(b.email, isEmail) == []
      && PasswordViolations(b.password) == [] && RoleViolations(b.role) == []
  {
    NameViolations(b.name) + EmailViolations(b.email, isEmail)
    + PasswordViolations(b.password) + RoleViolations(b.role)
  }

  /** login: only the e-mail is checked beyond presence; any non-empty
      password passes. */
  function LoginPasswordViolations(v: Value): (r: seq<Violation>)
    ensures r == [] <==> Truthy(v)
    ensures AllAt(r, BodyPath("password"))
  {
    match v
    case Absent => [Violation(BodyPath("password"), "Password is required")]
    case Null => [Violation(BodyPath("password"), "Password is required")]
    case Str(s) => Check(s != "", BodyPath("password"), "Password is required")
  }

  function LoginViolations(b: LoginBody, isEmail: string -> bool): (r: seq<Violation>)
    ensures r == [] <==> EmailViolations(b.email, isEmail) == [] && Truthy(b.password)
  {
    EmailViolations(b.email, isEmail) + LoginPasswordViolations(b.password)
  }

  /** Every password signup accepts is accepted at login. */
  lemma SignupPasswordPassesLogin(v: Value)
    requires PasswordViolations(v) == []
    ensures LoginPasswordViolations(v) == []
  {
  }

  /** The empty password fails three tests at signup (required, min and the
      pattern), and the pattern's
      message is the last, so it is the one the error map keeps. */
  lemma EmptyPasswordViolations()
    ensures PasswordViolations(Str("")) ==
      [ Violation(BodyPath("password"), "Password is required"),
        Violation(BodyPath("password"), "Password must be at least 6 characters"),
        Violation(BodyPath("password"), PasswordPatternMessage) ]
  {
    assert !MatchesPasswordPattern("");
  }
}
