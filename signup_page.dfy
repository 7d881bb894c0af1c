/** client/src/pages/Signup.jsx: the sign-up form, its client-side schema
    (untrimmed name, a confirm-password field, a required role), how a
    failed submission is reported, and where a successful one leads.
    Whether a text is an e-mail address is a parameter (`isEmail`). */
module SignupPage {
  import opened Wrappers
  import opened Text
  import opened FieldErrors
  import opened Requests
  import opened SchemaRules
  import AuthValidation

  datatype SignupForm = SignupForm(name: string, email: string, password: string, confirmPassword: string, role: string)

  const InitialForm := SignupForm("", "", "", "", "user")

  datatype Field = NameField | EmailField | PasswordField | ConfirmPasswordField | RoleField

  function FieldName(f: Field): string
  {
    match f
    case NameField => "name"
    case EmailField => "email"
    case PasswordField => "password"
    case ConfirmPasswordField => "confirmPassword"
    case RoleField => "role"
  }

  function Get(form: SignupForm, f: Field): string
  {
    match f
    case NameField => form.name
    case EmailField => form.email
    case PasswordField => form.password
    case ConfirmPasswordField => form.confirmPassword
    case RoleField => form.role
  }

  /** `{ ...formData, [name]: value }`. */
  function Set(form: SignupForm, f: Field, value: string): (r: SignupForm)
    ensures Get(r, f) == value
    ensures forall g :: g != f ==> Get(r, g) == Get(form, g)
  {
    match f
    case NameField => form.(name := value)
    case EmailField => form.(email := value)
    case PasswordField => form.(password := value)
    case ConfirmPasswordField => form.(confirmPassword := value)
    case RoleField => form.(role := value)
  }

  const PasswordsMustMatch := "Passwords must match"

  /** `string().required().min(2).max(100)` on the name as typed. */
  function NameViolations(s: string): (r: seq<Violation>)
    ensures r == [] <==> AuthValidation.NameMin <= |s| <= AuthValidation.NameMax
    ensures AllAt(r, "name")
  {
    Check(s != "", "name", "Name is required")
    + Check(|s| >= AuthValidation.NameMin, "name", "Name must be at least 2 characters")
    + Check(|s| <= AuthValidation.NameMax, "name", "Name must not exceed 100 characters")
  }

  /** `string().required().email()`; `email()` lets the empty text through. */
  function EmailViolations(s: string, isEmail: string -> bool): (r: seq<Violation>)
    ensures r == [] <==> s != "" && isEmail(s)
    ensures s == "" ==> r == [Violation("email", "Email is required")]
    ensures AllAt(r, "email")
  {
    Check(s != "", "email", "Email is required")
    + Check(s == "" || isEmail(s), "email", "Please enter a valid email address")
  }

  /** The password rules, as on the server. */
  function PasswordViolations(s: string): (r: seq<Violation>)
    ensures r == [] <==> AuthValidation.PasswordMin <= |s| <= AuthValidation.PasswordMax && MatchesPasswordPattern(s)
    ensures AllAt(r, "password")
  {
    Check(s != "", "password", "Password is required")
    + Check(|s| >= AuthValidation.PasswordMin, "password", "Password must be at least 6 characters")
    + Check(|s| <= AuthValidation.PasswordMax, "password", "Password must not exceed 100 characters")
    + Check(MatchesPasswordPattern(s), "password", AuthValidation.PasswordPatternMessage)
  }

  /** `string().required().oneOf([ref('password')])`: the oneOf check
      comes first and stops the field, so an empty confirmation of a
      non-empty password shows only the mismatch. */
  function ConfirmViolations(confirm: string, password: string): (r: seq<Violation>)
    ensures r == [] <==> confirm != "" && confirm == password
    ensures confirm != password ==> r == [Violation("confirmPassword", PasswordsMustMatch)]
    ensures confirm == password == "" ==> r == [Violation("confirmPassword", "Please confirm your password")]
    ensures AllAt(r, "confirmPassword")
  {
    if confirm != password then [Violation("confirmPassword", PasswordsMustMatch)]
    else Check(confirm != "", "confirmPassword", "Please confirm your password")
  }

  /** `string().required().oneOf(['user', 'admin'])`: any other text, the
      empty one included, gets only "Invalid role". */
  function RoleViolations(s: string): (r: seq<Violation>)
    ensures r == [] <==> s == "user" || s == "admin"
    ensures !(s == "user" || s == "admin") ==> r == [Violation("role", "Invalid role")]
    ensures AllAt(r, "role")
  {
    if s == "user" || s == "admin" then [] else [Violation("role", "Invalid role")]
  }

  predicate AcceptsForm(form: SignupForm, isEmail: string -> bool)
  {
    && AuthValidation.NameMin <= |form.name| <= AuthValidation.NameMax
    && form.email != "" && isEmail(form.email)
    && AuthValidation.PasswordMin <= |form.password| <= AuthValidation.PasswordMax
    && MatchesPasswordPattern(form.password)
    && form.confirmPassword != "" && form.confirmPassword == form.password
    && (form.role == "user" || form.role == "admin")
  }

  function FormViolations(form: SignupForm, isEmail: string -> bool): (r: seq<Violation>)
    ensures r == [] <==> AcceptsForm(form, isEmail)
  {
    NameViolations(form.name)
    + EmailViolations(form.email, isEmail)
    + PasswordViolations(form.password)
    + ConfirmViolations(form.confirmPassword, form.password)
    + RoleViolations(form.role)
  }

  /** A confirmation that differs from the password shows "Passwords must
      match" under confirmPassword, even when it is also empty. */
  lemma MismatchShowsMatchMessage(form: SignupForm, isEmail: string -> bool)
    requires form.confirmPassword != form.password
    ensures var m := ErrorMap(FormViolations(form, isEmail));
      "confirmPassword" in m && m["confirmPassword"] == PasswordsMustMatch
  {
    var pre := NameViolations(form.name) + EmailViolations(form.email, isEmail) + PasswordViolations(form.password);
    var a := ConfirmViolations(form.confirmPassword, form.password);
    var post := RoleViolations(form.role);
    assert a[|a| - 1] == Violation("confirmPassword", PasswordsMustMatch);
    assert FormViolations(form, isEmail) == pre + a + post;
    LastMessageWins(pre, a, post, "confirmPassword");
  }

  /** A form the client accepts passes the server's signupSchema when its
      name has no white space at either end and its e-mail is already lower
      case and trimmed, given the same e-mail test. */
  lemma ClientAcceptedIsServerAccepted(form: SignupForm, isEmail: string -> bool)
    requires AcceptsForm(form, isEmail)
    requires !IsSpace(form.name[0]) && !IsSpace(form.name[|form.name| - 1])
    requires AuthValidation.NormalEmail(form.email) == form.email
    ensures AuthValidation.SignupViolations(SignupCall(form.name, form.email, form.password, form.role).Body(), isEmail) == []
  {
    ServerAcceptsName(form, isEmail);
    ServerAcceptsEmail(form, isEmail);
    ServerAcceptsPassword(form, isEmail);
    ServerAcceptsRole(form, isEmail);
  }

  lemma ServerAcceptsName(form: SignupForm, isEmail: string -> bool)
    requires AcceptsForm(form, isEmail)
    requires !IsSpace(form.name[0]) && !IsSpace(form.name[|form.name| - 1])
    ensures AuthValidation.NameViolations(Str(form.name)) == []
  {
    TrimUnchanged(form.name);
  }

  lemma ServerAcceptsEmail(form: SignupForm, isEmail: string -> bool)
    requires AcceptsForm(form, isEmail)
    requires AuthValidation.NormalEmail(form.email) == form.email
    ensures AuthValidation.EmailViolations(Str(form.email), isEmail) == []
  {
  }

  lemma ServerAcceptsPassword(form: SignupForm, isEmail: string -> bool)
    requires AcceptsForm(form, isEmail)
    ensures AuthValidation.PasswordViolations(Str(form.password)) == []
  {
  }

  lemma ServerAcceptsRole(form: SignupForm, isEmail: string -> bool)
    requires AcceptsForm(form, isEmail)
    ensures AuthValidation.RoleViolations(Str(form.role)) == []
  {
  }

  /** The call to signup(name, email, password, role): the confirmation is
      not sent. */
  datatype SignupCall = SignupCall(name: string, email: string, password: string, role: string)
  {
    /** The request body the server validates. */
    function Body(): AuthValidation.SignupBody
    {
      AuthValidation.SignupBody(Str(name), Str(email), Str(password), Str(role))
    }
  }

  /** How signup ended: the signed-up user's role, or a failure with the
      API's `message` and the error's own message, when present. */
  datatype SignupOutcome = SignedUp(role: string) | Rejected(apiMessage: Option<string>, errorMessage: Option<string>)

  const SignupFailedMessage := "Signup failed. Please try again."

  /** `err.response?.data?.message || err.message || fallback`. */
  function FailureMessage(o: SignupOutcome): (m: string)
    requires o.Rejected?
    ensures m != ""
    ensures o.apiMessage.Some? && o.apiMessage.value != "" ==> m == o.apiMessage.value
    ensures !(o.apiMessage.Some? && o.apiMessage.value != "") && o.errorMessage.Some? && o.errorMessage.value != "" ==>
      m == o.errorMessage.value
    ensures !(o.apiMessage.Some? && o.apiMessage.value != "") && !(o.errorMessage.Some? && o.errorMessage.value != "") ==>
      m == SignupFailedMessage
  {
    if o.apiMessage.Some? && o.apiMessage.value != "" then o.apiMessage.value
    else if o.errorMessage.Some? && o.errorMessage.value != "" then o.errorMessage.value
    else SignupFailedMessage
  }

  /** Where a signed-up user is sent. */
  function Destination(role: string): (path: string)
    ensures role == "admin" ==> path == "/admin/dashboard"
    ensures role != "admin" ==> path == "/tasks"
  {
    if role == "admin" then "/admin/dashboard" else "/tasks"
  }

  class Page {
    var form: SignupForm
    var error: string
    var fieldErrors: map<string, string>
    var loading: bool
    var navigatedTo: Option<string>

    constructor()
      ensures form == InitialForm && error == "" && fieldErrors == map[] && !loading && navigatedTo == None
    {
      form := InitialForm;
      error := "";
      fieldErrors := map[];
      loading := false;
      navigatedTo := None;
    }

    /** handleChange: stores the input and clears that input's error, when
        it has a non-empty one. */
    method Change(f: Field, value: string)
      modifies this
      ensures form == Set(old(form), f, value)
      ensures FieldName(f) in old(fieldErrors) && old(fieldErrors)[FieldName(f)] != "" ==>
        fieldErrors == old(fieldErrors) - {FieldName(f)}
      ensures !(FieldName(f) in old(fieldErrors) && old(fieldErrors)[FieldName(f)] != "") ==>
        fieldErrors == old(fieldErrors)
      ensures error == old(error) && loading == old(loading) && navigatedTo == old(navigatedTo)
    {
      form := Set(form, f, value);
      var name := FieldName(f);
      if name in fieldErrors && fieldErrors[name] != "" {
        fieldErrors := fieldErrors - {name};
      }
    }

    /** handleSubmit: a rejected form fills the field errors and calls
        nothing; an accepted one calls signup, then navigates or shows one
        message. Loading ends either way. */
    method Submit(isEmail: string -> bool, outcome: SignupOutcome) returns (call: Option<SignupCall>)
      modifies this
      ensures call.Some? <==> FormViolations(old(form), isEmail) == []
      ensures call.None? ==> fieldErrors == ErrorMap(FormViolations(old(form), isEmail))
      ensures call.None? ==> error == "" && navigatedTo == old(navigatedTo)
      ensures call.Some? ==> call.value == SignupCall(old(form).name, old(form).email, old(form).password, old(form).role)
      ensures call.Some? && outcome.SignedUp? ==>
        navigatedTo == Some(Destination(outcome.role)) && error == "" && fieldErrors == map[]
      ensures call.Some? && outcome.Rejected? ==>
        error == FailureMessage(outcome) && fieldErrors == map[] && navigatedTo == old(navigatedTo)
      ensures form == old(form) && !loading
    {
      var f := form;
      error, fieldErrors, loading := "", map[], true;
      var vs := FormViolations(f, isEmail);
      if vs != [] {
        var m := Collect(vs);
        fieldErrors := m;
        call := None;
      } else {
        call := Some(SignupCall(f.name, f.email, f.password, f.role));
        if outcome.SignedUp? {
          navigatedTo := Some(Destination(outcome.role));
        } else {
          error := FailureMessage(outcome);
        }
      }
      loading := false;
    }
  }
}
