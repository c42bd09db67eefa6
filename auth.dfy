/** The sign-in / sign-up form: field rules, the error map they fill, and the submit gate. The authentication
    provider itself is outside the model; a submit returns the call it would make. */
module Auth {
  import opened Common
  import opened Text
  import RiskScoring

  datatype Field = Email | Password | DisplayName | ConfirmPassword

  datatype FormData = FormData(email: string, password: string, displayName: string, confirmPassword: string)

  function Get(form: FormData, f: Field): string {
    match f
    case Email => form.email
    case Password => form.password
    case DisplayName => form.displayName
    case ConfirmPassword => form.confirmPassword
  }

  /** `{ ...prev, [name]: value }`. */
  function Set(form: FormData, f: Field, v: string): (r: FormData)
    ensures Get(r, f) == v
    ensures forall g :: g != f ==> Get(r, g) == Get(form, g)
  {
    match f
    case Email => form.(email := v)
    case Password => form.(password := v)
    case DisplayName => form.(displayName := v)
    case ConfirmPassword => form.(confirmPassword := v)
  }

  // ---------------------------------------------------------------- the e-mail pattern

  /** A match of `\S+@\S+\.\S+` around an `@` at `at` and a `.` at `dot`: some non-space just before the `@`, a
      non-empty run of non-spaces up to the dot, and a non-space just after it. The pattern is not anchored, so
      nothing is said about the rest of the text. */
  predicate MatchAt(s: string, at: int, dot: int) {
    1 <= at && at + 1 < dot && dot + 1 < |s|
    && !IsWhitespace(s[at - 1]) && s[at] == '@' && s[dot] == '.' && !IsWhitespace(s[dot + 1])
    && forall k :: at < k < dot ==> !IsWhitespace(s[k])
  }

  /** `/\S+@\S+\.\S+/.test(s)`. */
  predicate EmailPattern(s: string) {
    exists at, dot | 0 <= at < |s| && 0 <= dot < |s| :: MatchAt(s, at, dot)
  }

  /** Being unanchored, the pattern still matches whatever is written around a matching text. */
  lemma PatternUnanchored(before: string, s: string, after: string)
    requires EmailPattern(s)
    ensures EmailPattern(before + s + after)
  {
    var at, dot :| 0 <= at < |s| && 0 <= dot < |s| && MatchAt(s, at, dot);
    var t := before + s + after;
    var n := |before|;
    forall k | 0 <= k < |s| ensures t[n + k] == s[k] { }
    assert MatchAt(t, n + at, n + dot) by {
      forall k | n + at < k < n + dot ensures !IsWhitespace(t[k]) {
        assert t[k] == s[k - n];
      }
    }
  }

  /** Every address the shared validator accepts, this form accepts too. */
  lemma SharedValidatorIsStricter(s: string)
    requires RiskScoring.ValidateEmail(s)
    ensures EmailPattern(s)
  {
    var at, dot :| RiskScoring.EmailShapeAt(s, at, dot);
    assert MatchAt(s, at, dot);
  }

  /** ... but not the other way round: the form lets through text with spaces around an address. */
  lemma FormAcceptsPaddedAddress()
    ensures EmailPattern("x a@b.c")
    ensures !RiskScoring.ValidateEmail("x a@b.c")
  {
    var s := "x a@b.c";
    assert MatchAt(s, 3, 5);
    assert IsWhitespace(s[1]);
  }

  // ---------------------------------------------------------------- the rules

  const EmailRequired := "Email is required"
  const EmailInvalid := "Email is invalid"
  const PasswordRequired := "Password is required"
  const PasswordTooShort := "Password must be at least 6 characters"
  const NameRequired := "Full name is required"
  const PasswordsDiffer := "Passwords do not match"
  const MinPasswordLength := 6

  /** The error a field's rule gives, if any; the last two rules apply only when signing up. */
  function RuleFor(form: FormData, isLogin: bool, f: Field): Option<string> {
    match f
    case Email =>
      if form.email == "" then Some(EmailRequired) else if !EmailPattern(form.email) then Some(EmailInvalid) else None
    case Password =>
      if form.password == "" then Some(PasswordRequired)
      else if |form.password| < MinPasswordLength then Some(PasswordTooShort) else None
    case DisplayName =>
      if !isLogin && form.displayName == "" then Some(NameRequired) else None
    case ConfirmPassword =>
      if !isLogin && form.password != form.confirmPassword then Some(PasswordsDiffer) else None
  }

  /** The error map `validateForm` builds: one entry per field whose rule fails. */
  function FormErrors(form: FormData, isLogin: bool): map<Field, string> {
    map f | f in {Email, Password, DisplayName, ConfirmPassword} && RuleFor(form, isLogin, f).Some? ::
      RuleFor(form, isLogin, f).value
  }

  function Add(m: map<Field, string>, f: Field, rule: Option<string>): map<Field, string> {
    if rule.Some? then m[f := rule.value] else m
  }

  /** The error map is what applying the four rules in turn to an empty map leaves. */
  lemma FormErrorsByRule(form: FormData, isLogin: bool)
    ensures FormErrors(form, isLogin) ==
      Add(Add(Add(Add(map[], Email, RuleFor(form, isLogin, Email)), Password, RuleFor(form, isLogin, Password)),
        DisplayName, RuleFor(form, isLogin, DisplayName)), ConfirmPassword, RuleFor(form, isLogin, ConfirmPassword))
  {
    var m := Add(Add(Add(Add(map[], Email, RuleFor(form, isLogin, Email)), Password, RuleFor(form, isLogin, Password)),
      DisplayName, RuleFor(form, isLogin, DisplayName)), ConfirmPassword, RuleFor(form, isLogin, ConfirmPassword));
    forall f ensures (f in m <==> f in FormErrors(form, isLogin)) && (f in m ==> m[f] == FormErrors(form, isLogin)[f]) {
      match f
      case Email =>
      case Password =>
      case DisplayName =>
      case ConfirmPassword =>
    }
  }

  /** The e-mail and password rules: each reports its empty case first, a length of six is enough, and an e-mail
      fails exactly when it is empty or nowhere matches the pattern. */
  lemma FieldRules(form: FormData, isLogin: bool)
    ensures Email in FormErrors(form, isLogin) <==> form.email == "" || !EmailPattern(form.email)
    ensures form.email == "" ==> FormErrors(form, isLogin)[Email] == EmailRequired
    ensures Password in FormErrors(form, isLogin) <==> |form.password| < MinPasswordLength
    ensures form.password == "" ==> FormErrors(form, isLogin)[Password] == PasswordRequired
    ensures 0 < |form.password| < MinPasswordLength ==> FormErrors(form, isLogin)[Password] == PasswordTooShort
    ensures !isLogin ==> (DisplayName in FormErrors(form, isLogin) <==> form.displayName == "")
    ensures !isLogin ==> (ConfirmPassword in FormErrors(form, isLogin) <==> form.password != form.confirmPassword)
  {
  }

  /** Signing in never reports the name or the confirmation, whatever they hold. */
  lemma LoginIgnoresSignupFields(form: FormData)
    ensures DisplayName !in FormErrors(form, true) && ConfirmPassword !in FormErrors(form, true)
    ensures forall name, confirm ::
      (FormErrors(form.(displayName := name, confirmPassword := confirm), true) == FormErrors(form, true))
  {
  }

  /** What a submit asks of the authentication provider. */
  datatype AuthCall = NoCall | Login(email: string, password: string) | Signup(email: string, password: string, displayName: string)

  class AuthForm {
    var isLogin: bool
    var formData: FormData
    var errors: map<Field, string>
    var loading: bool

    constructor()
      ensures isLogin && formData == FormData("", "", "", "") && errors == map[] && !loading
    {
      isLogin := true;
      formData := FormData("", "", "", "");
      errors := map[];
      loading := false;
    }

    /** The Sign In / Sign Up tabs. */
    method SetMode(login: bool)
      modifies this
      ensures isLogin == login
      ensures formData == old(formData) && errors == old(errors) && loading == old(loading)
    {
      isLogin := login;
    }

    /** `validateForm`: rule by rule into a fresh map, which replaces the old one wholesale. */
    method ValidateForm() returns (ok: bool)
      modifies this
      ensures errors == FormErrors(formData, isLogin)
      ensures ok <==> errors == map[]
      ensures isLogin == old(isLogin) && formData == old(formData) && loading == old(loading)
    {
      var newErrors: map<Field, string> := map[];
      if formData.email == "" {
        newErrors := newErrors[Email := EmailRequired];
      } else if !EmailPattern(formData.email) {
        newErrors := newErrors[Email := EmailInvalid];
      }
      ghost var afterEmail := newErrors;
      assert afterEmail == Add(map[], Email, RuleFor(formData, isLogin, Email));
      if formData.password == "" {
        newErrors := newErrors[Password := PasswordRequired];
      } else if |formData.password| < MinPasswordLength {
        newErrors := newErrors[Password := PasswordTooShort];
      }
      ghost var afterPassword := newErrors;
      assert afterPassword == Add(afterEmail, Password, RuleFor(formData, isLogin, Password));
      if !isLogin {
        if formData.displayName == "" {
          newErrors := newErrors[DisplayName := NameRequired];
        }
        assert newErrors == Add(afterPassword, DisplayName, RuleFor(formData, isLogin, DisplayName));
        if formData.password != formData.confirmPassword {
          newErrors := newErrors[ConfirmPassword := PasswordsDiffer];
        }
      }
      FormErrorsByRule(formData, isLogin);
      errors := newErrors;
      ok := newErrors == map[];
    }

    /** `handleSubmit`: nothing is called when validation fails; otherwise the mode's call with the form's
        values, and the loading flag ends cleared either way. */
    method HandleSubmit() returns (call: AuthCall)
      modifies this
      ensures errors == FormErrors(formData, isLogin)
      ensures call.NoCall? <==> errors != map[]
      ensures call.Login? <==> errors == map[] && isLogin
      ensures call.Login? ==> call == Login(formData.email, formData.password)
      ensures call.Signup? ==> call == Signup(formData.email, formData.password, formData.displayName)
      ensures isLogin == old(isLogin) && formData == old(formData)
      ensures call.NoCall? ==> loading == old(loading)
      ensures !call.NoCall? ==> !loading
    {
      var ok := ValidateForm();
      if !ok {
        return NoCall;
      }
      loading := true;
      if isLogin {
        call := Login(formData.email, formData.password);
      } else {
        call := Signup(formData.email, formData.password, formData.displayName);
      }
      loading := false;
    }

    /** `handleInputChange`: only the named field changes, and only its error is blanked, when it had one. */
    method HandleInputChange(f: Field, value: string)
      modifies this
      ensures formData == Set(old(formData), f, value)
      ensures f in old(errors) && old(errors)[f] != "" ==> errors == old(errors)[f := ""]
      ensures !(f in old(errors) && old(errors)[f] != "") ==> errors == old(errors)
      ensures isLogin == old(isLogin) && loading == old(loading)
    {
      formData := Set(formData, f, value);
      if f in errors && errors[f] != "" {
        errors := errors[f := ""];
      }
    }
  }

  /** Editing a field leaves every other field's value and error as it was. */
  lemma InputChangeIsLocal(form: FormData, errors: map<Field, string>, f: Field, value: string, g: Field)
    requires g != f
    ensures Get(Set(form, f, value), g) == Get(form, g)
    ensures var e := if f in errors && errors[f] != "" then errors[f := ""] else errors;
      (g in e <==> g in errors) && (g in e ==> e[g] == errors[g])
  {
  }
}
