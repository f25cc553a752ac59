/** The validation rules of the authentication form
    (src/components/custom/Auth/Auth.tsx, `baseSchema` and `signupSchema`),
    restated as explicit functions from the form's values to the list of
    issues the active rule set reports. */
module AuthSchema {
  import opened AuthTypes

  /** Which rule set is in force: sign-in checks credentials only, sign-up
      checks the whole registration form. */
  datatype Mode = SignIn | SignUp

  /** The form's fields; an issue is attached to exactly one of them. */
  datatype Field = FullName | Email | Password | ConfirmPassword | ProfilePic

  /** Every value the form holds. The profile picture is absent until a
      file is chosen. */
  datatype FormValues = FormValues(
    fullName: string,
    email: string,
    password: string,
    confirmPassword: string,
    profilePic: Option<string>)

  /** One validation failure: the field it is reported on and its message. */
  datatype Issue = Issue(path: Field, message: string)

  /** The email grammar. It belongs to the validation library and is not
      visible, so every rule set takes it as a parameter. */
  type EmailGrammar = string -> bool

  /** Whether the cross-field password check still runs once a per-field rule
      has already failed. This depends on the version of the validation
      library, so the model keeps both behaviours. */
  datatype CrossCheck = RefineAlways | RefineWhenFieldsPass

  const EmailMessage: string := "Enter a valid Email address."
  const PasswordMessage: string := "Password must be at least 8 characters."
  const FullNameMessage: string := "Username must be at least 2 characters."
  const MismatchMessage: string := "Passwords do not match."

  const MinPasswordLength: nat := 8
  const MinFullNameLength: nat := 2

  /** The messages reported on field `f`, in order. */
  function ErrorsOn(issues: seq<Issue>, f: Field): (msgs: seq<string>)
    ensures |msgs| <= |issues|
  {
    if issues == [] then []
    else
      (if issues[0].path == f then [issues[0].message] else [])
      + ErrorsOn(issues[1..], f)
  }

  /** Reporting distributes over concatenation of issue lists. */
  lemma {:induction false} ErrorsOnAppend(a: seq<Issue>, b: seq<Issue>, f: Field)
    ensures ErrorsOn(a + b, f) == ErrorsOn(a, f) + ErrorsOn(b, f)
  {
    if a == [] {
      assert a + b == b;
    } else {
      assert (a + b)[1..] == a[1..] + b;
      ErrorsOnAppend(a[1..], b, f);
    }
  }

  /** The string rule `email(message)`. */
  function EmailIssues(isEmail: EmailGrammar, email: string): seq<Issue>
  {
    if isEmail(email) then [] else [Issue(Email, EmailMessage)]
  }

  /** The string rule `min(n, message)` on field `f`. */
  function MinLengthIssues(f: Field, s: string, n: nat, message: string): seq<Issue>
  {
    if |s| < n then [Issue(f, message)] else []
  }

  /** `baseSchema`: email, then password of at least eight characters. */
  function BaseIssues(isEmail: EmailGrammar, v: FormValues): seq<Issue>
  {
    EmailIssues(isEmail, v.email)
    + MinLengthIssues(Password, v.password, MinPasswordLength, PasswordMessage)
  }

  /** The per-field rules of `signupSchema`: the base rules, then full name
      of at least two characters, then the confirmation's own length rule.
      The profile picture accepts any value, present or not. */
  function SignupFieldIssues(isEmail: EmailGrammar, v: FormValues): seq<Issue>
  {
    BaseIssues(isEmail, v)
    + MinLengthIssues(FullName, v.fullName, MinFullNameLength, FullNameMessage)
    + MinLengthIssues(ConfirmPassword, v.confirmPassword, MinPasswordLength, PasswordMessage)
  }

  /** The `.refine` of `signupSchema`: the two passwords must be equal, and a
      mismatch is reported on the confirmation. */
  function MismatchIssues(v: FormValues): seq<Issue>
  {
    if v.password == v.confirmPassword then [] else [Issue(ConfirmPassword, MismatchMessage)]
  }

  function SignupIssues(isEmail: EmailGrammar, order: CrossCheck, v: FormValues): seq<Issue>
  {
    var fieldIssues := SignupFieldIssues(isEmail, v);
    if order == RefineWhenFieldsPass && fieldIssues != [] then fieldIssues
    else fieldIssues + MismatchIssues(v)
  }

  /** Reference definition of an acceptable form, rule by rule. */
  ghost predicate Accepts(isEmail: EmailGrammar, mode: Mode, v: FormValues)
  {
    && isEmail(v.email)
    && |v.password| >= MinPasswordLength
    && (mode == SignUp ==>
          && |v.fullName| >= MinFullNameLength
          && |v.confirmPassword| >= MinPasswordLength
          && v.password == v.confirmPassword)
  }

  /** Every per-field rule of the sign-up schema passes. */
  ghost predicate SignupFieldsPass(isEmail: EmailGrammar, v: FormValues)
  {
    && isEmail(v.email)
    && |v.password| >= MinPasswordLength
    && |v.fullName| >= MinFullNameLength
    && |v.confirmPassword| >= MinPasswordLength
  }

  /** The resolver: the mode picks the rule set in force, and the form is
      valid exactly when it reports no issue. */
  function Validate(isEmail: EmailGrammar, order: CrossCheck, mode: Mode, v: FormValues): (issues: seq<Issue>)
    ensures issues == [] <==> Accepts(isEmail, mode, v)
    ensures forall i :: 0 <= i < |issues| ==> issues[i].path != ProfilePic
    ensures mode == SignIn ==> forall i :: 0 <= i < |issues| ==> issues[i].path in {Email, Password}
  {
    match mode
    case SignIn => BaseIssues(isEmail, v)
    case SignUp => SignupIssues(isEmail, order, v)
  }

  /** In sign-in mode only the email and password rules apply: the other
      fields never carry an error and cannot change the outcome. */
  lemma SignInChecksOnlyCredentials(isEmail: EmailGrammar, order: CrossCheck, v: FormValues, w: FormValues)
    requires v.email == w.email && v.password == w.password
    ensures Validate(isEmail, order, SignIn, v) == Validate(isEmail, order, SignIn, w)
    ensures ErrorsOn(Validate(isEmail, order, SignIn, v), FullName) == []
    ensures ErrorsOn(Validate(isEmail, order, SignIn, v), ConfirmPassword) == []
    ensures ErrorsOn(Validate(isEmail, order, SignIn, v), ProfilePic) == []
  {
  }

  /** In both modes the email field carries exactly the email message when
      the grammar rejects it, and nothing otherwise. */
  lemma EmailRule(isEmail: EmailGrammar, order: CrossCheck, mode: Mode, v: FormValues)
    ensures ErrorsOn(Validate(isEmail, order, mode, v), Email)
         == if isEmail(v.email) then [] else [EmailMessage]
  {
    match mode
    case SignIn => BaseErrors(isEmail, v, Email);
    case SignUp => SignupErrors(isEmail, order, v, Email);
  }

  /** In both modes the password field carries exactly the length message
      when the password is shorter than eight, and nothing otherwise; in
      particular a mismatch is never reported on it. */
  lemma PasswordRule(isEmail: EmailGrammar, order: CrossCheck, mode: Mode, v: FormValues)
    ensures ErrorsOn(Validate(isEmail, order, mode, v), Password)
         == if |v.password| < MinPasswordLength then [PasswordMessage] else []
  {
    match mode
    case SignIn => BaseErrors(isEmail, v, Password);
    case SignUp => SignupErrors(isEmail, order, v, Password);
  }

  /** In sign-up mode the full name carries exactly its length message when
      shorter than two, and the profile picture never carries an error. */
  lemma FullNameAndProfilePicRules(isEmail: EmailGrammar, order: CrossCheck, v: FormValues)
    ensures ErrorsOn(Validate(isEmail, order, SignUp, v), FullName)
         == if |v.fullName| < MinFullNameLength then [FullNameMessage] else []
    ensures ErrorsOn(Validate(isEmail, order, SignUp, v), ProfilePic) == []
  {
    SignupErrors(isEmail, order, v, FullName);
    SignupErrors(isEmail, order, v, ProfilePic);
  }

  /** In sign-up mode the confirmation is length-checked on its own: it
      carries the password length message exactly when it is shorter than
      eight, whatever the password is. */
  lemma ConfirmPasswordLengthRule(isEmail: EmailGrammar, order: CrossCheck, v: FormValues)
    ensures PasswordMessage in ErrorsOn(Validate(isEmail, order, SignUp, v), ConfirmPassword)
            <==> |v.confirmPassword| < MinPasswordLength
  {
    SignupErrors(isEmail, order, v, ConfirmPassword);
    assert PasswordMessage != MismatchMessage by {
      assert PasswordMessage[8] != MismatchMessage[8];
    }
  }

  /** In sign-up mode, once every per-field rule passes, the form is valid
      exactly when the passwords are equal, and a mismatch is reported on
      the confirmation alone, never on the password. */
  lemma MismatchOnConfirmPassword(isEmail: EmailGrammar, order: CrossCheck, v: FormValues)
    requires SignupFieldsPass(isEmail, v)
    ensures Validate(isEmail, order, SignUp, v) == [] <==> v.password == v.confirmPassword
    ensures v.password != v.confirmPassword ==>
              && ErrorsOn(Validate(isEmail, order, SignUp, v), ConfirmPassword) == [MismatchMessage]
              && ErrorsOn(Validate(isEmail, order, SignUp, v), Password) == []
  {
  }

  /** Sign-up with valid fields but different passwords: the only issue is
      the mismatch, on the confirmation. */
  lemma MismatchExample(isEmail: EmailGrammar, order: CrossCheck)
    requires isEmail("a@b.com")
    ensures Validate(isEmail, order, SignUp, FormValues("Jo", "a@b.com", "12345678", "87654321", None))
         == [Issue(ConfirmPassword, MismatchMessage)]
  {
  }

  /** Sign-up with matching passwords but a one-letter name: the only issue
      is the name's length, on the full name. */
  lemma ShortNameExample(isEmail: EmailGrammar, order: CrossCheck)
    requires isEmail("a@b.com")
    ensures Validate(isEmail, order, SignUp, FormValues("J", "a@b.com", "12345678", "12345678", None))
         == [Issue(FullName, FullNameMessage)]
  {
  }

  /** The messages the sign-up per-field rules put on field `f`; sign-in
      applies the same rules to email and password. */
  function FieldMessages(isEmail: EmailGrammar, v: FormValues, f: Field): seq<string>
  {
    match f
    case Email => if isEmail(v.email) then [] else [EmailMessage]
    case Password => if |v.password| < MinPasswordLength then [PasswordMessage] else []
    case FullName => if |v.fullName| < MinFullNameLength then [FullNameMessage] else []
    case ConfirmPassword => if |v.confirmPassword| < MinPasswordLength then [PasswordMessage] else []
    case ProfilePic => []
  }

  /** The message, if any, that a list of at most one issue puts on `f`. */
  function ReportedOn(issues: seq<Issue>, f: Field): seq<string>
    requires |issues| <= 1
  {
    if issues != [] && issues[0].path == f then [issues[0].message] else []
  }

  /** A list of at most one issue reports its message on its own field only. */
  lemma ErrorsOnAtMostOne(issues: seq<Issue>, f: Field)
    requires |issues| <= 1
    ensures ErrorsOn(issues, f) == ReportedOn(issues, f)
  {
  }

  /** Four rules reported one after another, each with at most one issue. */
  lemma ErrorsOnFourRules(a: seq<Issue>, b: seq<Issue>, c: seq<Issue>, d: seq<Issue>, f: Field)
    requires |a| <= 1 && |b| <= 1 && |c| <= 1 && |d| <= 1
    ensures ErrorsOn(a + b + c + d, f)
         == ReportedOn(a, f) + ReportedOn(b, f) + ReportedOn(c, f) + ReportedOn(d, f)
  {
    ErrorsOnAtMostOne(a, f);
    ErrorsOnAtMostOne(b, f);
    ErrorsOnAtMostOne(c, f);
    ErrorsOnAtMostOne(d, f);
    ErrorsOnAppend(a, b, f);
    ErrorsOnAppend(a + b, c, f);
    ErrorsOnAppend(a + b + c, d, f);
  }

  /** The sign-in issue list, one field at a time. */
  lemma BaseErrors(isEmail: EmailGrammar, v: FormValues, f: Field)
    ensures ErrorsOn(BaseIssues(isEmail, v), f)
         == if f == Email || f == Password then FieldMessages(isEmail, v, f) else []
  {
  }

  /** The sign-up per-field issue list, one field at a time. */
  lemma SignupFieldErrors(isEmail: EmailGrammar, v: FormValues, f: Field)
    ensures ErrorsOn(SignupFieldIssues(isEmail, v), f) == FieldMessages(isEmail, v, f)
  {
    var email := EmailIssues(isEmail, v.email);
    var pass := MinLengthIssues(Password, v.password, MinPasswordLength, PasswordMessage);
    var name := MinLengthIssues(FullName, v.fullName, MinFullNameLength, FullNameMessage);
    var conf := MinLengthIssues(ConfirmPassword, v.confirmPassword, MinPasswordLength, PasswordMessage);
    ErrorsOnFourRules(email, pass, name, conf, f);
  }

  /** Whether the sign-up rule set reports the password mismatch: the
      passwords differ and the cross-field check runs at all. */
  predicate MismatchReported(isEmail: EmailGrammar, order: CrossCheck, v: FormValues)
  {
    && v.password != v.confirmPassword
    && (order == RefineAlways || SignupFieldIssues(isEmail, v) == [])
  }

  /** The sign-up issue list, one field at a time, for either cross-check
      order: the per-field messages, and the mismatch on the confirmation. */
  lemma SignupErrors(isEmail: EmailGrammar, order: CrossCheck, v: FormValues, f: Field)
    ensures ErrorsOn(SignupIssues(isEmail, order, v), f)
         == FieldMessages(isEmail, v, f)
            + (if f == ConfirmPassword && MismatchReported(isEmail, order, v)
               then [MismatchMessage] else [])
    ensures SignupFieldsPass(isEmail, v) ==> SignupIssues(isEmail, order, v) == MismatchIssues(v)
  {
    var fields := SignupFieldIssues(isEmail, v);
    var refine := if MismatchReported(isEmail, order, v)
                  then [Issue(ConfirmPassword, MismatchMessage)] else [];
    assert SignupIssues(isEmail, order, v) == fields + refine;
    SignupFieldErrors(isEmail, v, f);
    ErrorsOnAtMostOne(refine, f);
    ErrorsOnAppend(fields, refine, f);
  }
}
