/** The authentication form component (src/components/custom/Auth/Auth.tsx):
    its mode, the values it holds, the errors it shows, switching between
    sign-in and sign-up, and what a submission dispatches. */
module AuthForm {
  import opened AuthTypes
  import opened AuthSchema

  /** What the component holds between events: the mode in force, the
      current field values and the errors on display. */
  datatype FormState = FormState(mode: Mode, values: FormValues, errors: seq<Issue>)

  /** Whether each of the two requests is still in flight, as the request
      hooks report it. */
  datatype Pending = Pending(signin: bool, register: bool)

  /** The outcome of pressing submit: the next state and the request it
      dispatches, if any. */
  datatype Submission = Submission(state: FormState, request: Option<Request>)

  /** The values the form starts with and returns to on reset; the profile
      picture has no default, so it is absent. */
  function DefaultValues(): (v: FormValues)
    ensures v.fullName == "" && v.email == "" && v.password == "" && v.confirmPassword == ""
    ensures v.profilePic == None
  {
    FormValues("", "", "", "", None)
  }

  function ModeOf(signin: bool): Mode
  {
    if signin then SignIn else SignUp
  }

  /** The component as first rendered with the `signin` prop. */
  function Init(signin: bool): (s: FormState)
    ensures s.mode == SignIn <==> signin
    ensures s.values.fullName == "" && s.values.email == ""
    ensures s.values.password == "" && s.values.confirmPassword == ""
    ensures s.values.profilePic == None
    ensures s.errors == []
  {
    FormState(ModeOf(signin), DefaultValues(), [])
  }

  /** Switching to the other form: the mode flips and the form is reset,
      which empties every field and clears the errors. */
  function Toggle(s: FormState): (t: FormState)
    ensures t.mode != s.mode
    ensures t.values.fullName == "" && t.values.email == ""
    ensures t.values.password == "" && t.values.confirmPassword == ""
    ensures t.values.profilePic == None
    ensures t.errors == []
  {
    FormState(if s.mode == SignIn then SignUp else SignIn, DefaultValues(), [])
  }

  /** Toggling twice returns to the original mode with a freshly reset
      form: exactly the state the component starts in for that mode. */
  lemma ToggleTwice(s: FormState)
    ensures Toggle(Toggle(s)).mode == s.mode
    ensures Toggle(Toggle(s)) == Init(s.mode == SignIn)
  {
  }

  /** The submit button is disabled while the request of the current mode
      is in flight. */
  predicate SubmitDisabled(mode: Mode, p: Pending)
    ensures mode == SignIn ==> (SubmitDisabled(mode, p) <==> p.signin)
    ensures mode == SignUp ==> (SubmitDisabled(mode, p) <==> p.register)
  {
    if mode == SignIn then p.signin else p.register
  }

  /** The request body a valid submission sends: sign-in keeps the
      credentials only; sign-up drops the confirmation and forwards the rest. */
  function Payload(mode: Mode, v: FormValues): (req: Request)
    ensures req.SignInRequest? <==> mode == SignIn
    ensures req.SignInRequest? ==>
              req.credentials.email == v.email && req.credentials.password == v.password
    ensures req.RegisterRequest? ==> Restore(req.registration, v.confirmPassword) == v
  {
    match mode
    case SignIn => SignInRequest(SignInForm(v.email, v.password))
    case SignUp => RegisterRequest(SignupForm(v.email, v.password, v.fullName, v.profilePic))
  }

  /** Puts the confirmation back beside registration data, rebuilding the
      form values it came from. */
  function Restore(data: SignupForm, confirmPassword: string): FormValues
  {
    FormValues(data.fullName, data.email, data.password, confirmPassword, data.profilePic)
  }

  /** Fields that only validation reads never reach the request: the
      confirmation in either mode, and in sign-in mode also the full name
      and the profile picture. */
  lemma PayloadIgnoresValidationOnlyFields(mode: Mode, v: FormValues, w: FormValues)
    requires v.email == w.email && v.password == w.password
    requires mode == SignUp ==> v.fullName == w.fullName && v.profilePic == w.profilePic
    ensures Payload(mode, v) == Payload(mode, w)
  {
  }

  /** Registration data keeps every value but the confirmation: two forms
      with the same registration data differ at most in their confirmation. */
  lemma RegistrationLosesOnlyConfirmation(v: FormValues, w: FormValues)
    requires Payload(SignUp, v) == Payload(SignUp, w)
    ensures v == w.(confirmPassword := v.confirmPassword)
  {
    assert Restore(Payload(SignUp, v).registration, v.confirmPassword) == v;
    assert Restore(Payload(SignUp, w).registration, v.confirmPassword)
        == w.(confirmPassword := v.confirmPassword);
  }

  /** Pressing submit. A disabled button does nothing. Otherwise the
      current rule set runs; its issues become the errors on display, and
      when there are none the payload of the current mode is dispatched. */
  function Submit(isEmail: EmailGrammar, order: CrossCheck, s: FormState, p: Pending): (r: Submission)
    ensures r.state.mode == s.mode && r.state.values == s.values
    ensures SubmitDisabled(s.mode, p) ==> r.state == s && r.request == None
    ensures r.request.Some? <==> !SubmitDisabled(s.mode, p) && Accepts(isEmail, s.mode, s.values)
    ensures !SubmitDisabled(s.mode, p) ==> r.state.errors == Validate(isEmail, order, s.mode, s.values)
    ensures r.request.Some? ==> r.request.value == Payload(s.mode, s.values)
  {
    if SubmitDisabled(s.mode, p) then Submission(s, None)
    else
      var issues := Validate(isEmail, order, s.mode, s.values);
      if issues == [] then Submission(s.(errors := []), Some(Payload(s.mode, s.values)))
      else Submission(s.(errors := issues), None)
  }

  /** A valid sign-in submission sends exactly the email and password
      typed, unchanged. */
  lemma SignInSubmitSendsCredentials(isEmail: EmailGrammar, order: CrossCheck, s: FormState, p: Pending)
    requires s.mode == SignIn && !p.signin
    requires isEmail(s.values.email) && |s.values.password| >= MinPasswordLength
    ensures Submit(isEmail, order, s, p).request
         == Some(SignInRequest(SignInForm(s.values.email, s.values.password)))
  {
  }

  /** A valid sign-up submission sends every value but the confirmation:
      email, password, full name and profile picture, unchanged. */
  lemma SignUpSubmitSendsRegistration(isEmail: EmailGrammar, order: CrossCheck, s: FormState, p: Pending)
    requires s.mode == SignUp && !p.register
    requires SignupFieldsPass(isEmail, s.values)
    requires s.values.password == s.values.confirmPassword
    ensures Submit(isEmail, order, s, p).request
         == Some(RegisterRequest(SignupForm(
              s.values.email, s.values.password, s.values.fullName, s.values.profilePic)))
  {
  }

  /** Only the current mode's request blocks submission: a sign-in still in
      flight does not disable the sign-up button, and the other way round. */
  lemma OnlyOwnRequestBlocks(isEmail: EmailGrammar, order: CrossCheck, s: FormState, p: Pending, q: Pending)
    requires s.mode == SignIn ==> p.signin == q.signin
    requires s.mode == SignUp ==> p.register == q.register
    ensures Submit(isEmail, order, s, p) == Submit(isEmail, order, s, q)
  {
  }
}
