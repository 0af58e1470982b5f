/** The login / register page: credential validation and the endpoint a submit posts to. */
module AuthPage {
  import opened Wrappers
  import opened JsStrings

  datatype Credentials = Credentials(email: string, password: string)

  datatype AuthField = EmailField | PasswordField

  function Message(f: AuthField): string {
    match f
    case EmailField => "Valid email is required"
    case PasswordField => "Password must be at least 6 characters"
  }

  /** Minimum password length, in JavaScript `length` units. */
  const MinPasswordLength := 6

  predicate Fails(c: Credentials, f: AuthField) {
    match f
    case EmailField => !Includes(c.email, '@')
    case PasswordField => Utf16Length(c.password) < MinPasswordLength
  }

  /** Every failing field, each with its message. */
  function CredentialErrors(c: Credentials): map<AuthField, string> {
    map f | f in {EmailField, PasswordField} && Fails(c, f) :: Message(f)
  }

  /** `validate`: fills `newErrors` one check at a time; true iff it stayed empty. */
  method Validate(c: Credentials) returns (newErrors: map<AuthField, string>, ok: bool)
    ensures newErrors == CredentialErrors(c)
    ensures ok <==> |newErrors| == 0
  {
    newErrors := map[];
    if !Includes(c.email, '@') {
      newErrors := newErrors[EmailField := Message(EmailField)];
    }
    if Utf16Length(c.password) < MinPasswordLength {
      newErrors := newErrors[PasswordField := Message(PasswordField)];
    }
    ok := |newErrors| == 0;
    forall f ensures f in newErrors <==> f in CredentialErrors(c) {
      match f
      case EmailField =>
      case PasswordField =>
    }
  }

  /**
   * Credentials pass exactly when the email contains '@' and the password is
   * at least six units long; when both fail, both errors are reported.
   */
  lemma CredentialsValidIff(c: Credentials)
    ensures CredentialErrors(c) == map[] <==> '@' in c.email && Utf16Length(c.password) >= MinPasswordLength
    ensures !('@' in c.email) && Utf16Length(c.password) < MinPasswordLength ==>
      CredentialErrors(c) == map[EmailField := Message(EmailField), PasswordField := Message(PasswordField)]
  {
    if CredentialErrors(c) == map[] {
      assert EmailField !in CredentialErrors(c) && PasswordField !in CredentialErrors(c);
    }
  }

  /** A password of six ordinary characters is accepted; five are not. */
  lemma PasswordBoundary(c: Credentials)
    requires forall i :: 0 <= i < |c.password| ==> c.password[i] as int <= 0xFFFF
    ensures PasswordField in CredentialErrors(c) <==> |c.password| < 6
  {
    Utf16LengthOfBmp(c.password);
  }

  /** `isLogin ? '/auth/login' : '/auth/register'`, under the `/api` prefix. */
  function AuthUrl(isLogin: bool): (url: string)
    ensures url == "/api/auth/login" <==> isLogin
    ensures url == "/api/auth/register" <==> !isLogin
  {
    "/api" + (if isLogin then "/auth/login" else "/auth/register")
  }

  /** A POST of the credentials to an endpoint. */
  datatype AuthRequest = AuthRequest(url: string, body: Credentials)

  /** `handleSubmit`: validates, and posts only when validation passes. */
  method HandleSubmit(isLogin: bool, c: Credentials) returns (errors: map<AuthField, string>, sent: Option<AuthRequest>)
    ensures errors == CredentialErrors(c)
    ensures sent.None? <==> errors != map[]
    ensures sent.Some? ==> sent.value == AuthRequest(AuthUrl(isLogin), c)
  {
    var ok;
    errors, ok := Validate(c);
    if !ok {
      return errors, None;
    }
    sent := Some(AuthRequest(AuthUrl(isLogin), c));
  }
}
