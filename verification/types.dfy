/** The request records the authentication form hands to the backend
    (src/types/types.ts), and the optional-value wrapper they need. */
module AuthTypes {

  /** A value that may be absent, as an optional property of a record. */
  datatype Option<+T> = None | Some(value: T)

  /** Credentials sent to the login endpoint (`SignInFormType`). */
  datatype SignInForm = SignInForm(email: string, password: string)

  /** Registration data sent to the register endpoint (`SignupFormType`);
      the profile picture is an optional property. */
  datatype SignupForm = SignupForm(
    email: string,
    password: string,
    fullName: string,
    profilePic: Option<string>)

  /** The single request a successful submission dispatches: one of the two
      mutations, with its payload. */
  datatype Request =
    | SignInRequest(credentials: SignInForm)
    | RegisterRequest(registration: SignupForm)
}
