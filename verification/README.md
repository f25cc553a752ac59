# Sign-in / sign-up form of the blog front end, in Dafny

This project models the authentication form of the blog application's web
front end. The form has two modes. In sign-in mode it checks an email and a
password. In sign-up mode it also checks a full name, a password
confirmation and an optional profile picture, and it requires the two
passwords to match. A valid submission sends either the credentials or the
registration data. Switching modes empties the form. The submit button is
disabled while the current mode's request is in flight.

Three modules, one per concern:

- `AuthTypes` (`types.dfy`) holds the two request records. `SignInForm` and
  `SignupForm` mirror `SignInFormType` and `SignupFormType`. It also holds an
  `Option` type and the `Request` a submission dispatches.
- `AuthSchema` (`schema.dfy`) restates the two rule sets as explicit
  functions. `baseSchema` becomes `BaseIssues`. `signupSchema` becomes
  `SignupFieldIssues` plus the `.refine` as `MismatchIssues`. `Validate` is
  the resolver the mode selects. A validation result is the ordered list of
  `Issue(path, message)`. `ErrorsOn(issues, f)` gives the messages on one
  field. `Accepts` is a rule-by-rule reference definition of a valid form.
- `AuthForm` (`form.dfy`) is the component's state machine. `Init` builds the
  state from the `signin` prop. `Toggle` switches forms and resets them.
  `Submit` validates, records errors and dispatches the `Payload`.
  `SubmitDisabled` is the button rule.

The email grammar belongs to the validation library and is not visible. Every
rule set therefore takes it as a parameter `isEmail: string -> bool`, and
every property holds for every grammar. The validation library's version
decides whether the cross-field password check still runs once a per-field
rule has failed. That choice is the parameter `CrossCheck`
(`RefineAlways | RefineWhenFieldsPass`), and every property holds for both
values. The pending flags of the two requests come from the request hooks,
so they are an input to `Submit`.

Three choices follow the code closely:

- Whether the `.refine` still runs after a per-field rule has failed depends
  on the validation library's version, so it is the `CrossCheck` parameter.
  The mismatch properties are stated only when every per-field rule passes,
  where both orders agree.
- Lengths are the string's `.length`, modelled as the length of a
  `seq<char>`.
- `profilePic` is `z.any().optional()` and `types.ts` types it as an optional
  string, hence `Option<string>`.

## Model

| member | source | states |
|---|---|---|
| `AuthSchema.Validate` | src/components/custom/Auth/Auth.tsx:31-48 | The rule set picked by the mode reports no issue exactly when the rule-by-rule reference `Accepts` holds. Sign-in needs a valid email and a password of at least 8. Sign-up also needs a full name of at least 2, a confirmation of at least 8 and equal passwords. No issue is ever reported on the profile picture. In sign-in mode issues only name email or password. |
| `AuthSchema.SignInChecksOnlyCredentials` | src/components/custom/Auth/Auth.tsx:31-34 | In sign-in mode, full name, confirmation and profile picture never carry an error. Two forms with the same email and password get the same issues. |
| `AuthSchema.EmailRule` | src/components/custom/Auth/Auth.tsx:32 | In both modes, the email field carries exactly `["Enter a valid Email address."]` when the grammar rejects it, and no message otherwise. |
| `AuthSchema.PasswordRule` | src/components/custom/Auth/Auth.tsx:33 | In both modes, the password field carries exactly `["Password must be at least 8 characters."]` when it is shorter than 8, and no message otherwise. So the mismatch message never lands on it. |
| `AuthSchema.FullNameAndProfilePicRules` | src/components/custom/Auth/Auth.tsx:39-40 | In sign-up mode, the full name carries exactly `["Username must be at least 2 characters."]` when shorter than 2, and no message otherwise. The profile picture never carries an error. |
| `AuthSchema.ConfirmPasswordLengthRule` | src/components/custom/Auth/Auth.tsx:41-43 | In sign-up mode, the confirmation carries the 8-character message exactly when it is shorter than 8, whatever the password is. |
| `AuthSchema.MismatchOnConfirmPassword` | src/components/custom/Auth/Auth.tsx:45-48 | In sign-up mode with every per-field rule passing, the form is valid exactly when the passwords are equal. On a mismatch, the confirmation carries exactly `["Passwords do not match."]` and the password carries nothing. |
| `AuthSchema.MismatchExample` | src/components/custom/Auth/Auth.tsx:45-48 | Sign-up with name "Jo", a valid email, password "12345678" and confirmation "87654321" yields exactly one issue: "Passwords do not match." on the confirmation. |
| `AuthSchema.ShortNameExample` | src/components/custom/Auth/Auth.tsx:39 | Sign-up with name "J", a valid email and matching 8-character passwords yields exactly one issue: the name-length message on the full name. |
| `AuthSchema.BaseErrors` | src/components/custom/Auth/Auth.tsx:31-34 | Field by field, the sign-in rules report the email message and the password message under their own conditions, and nothing on any other field. |
| `AuthSchema.SignupErrors` | src/components/custom/Auth/Auth.tsx:37-48 | Field by field, the sign-up rules report each per-field message under its own condition. The mismatch message appears only on the confirmation, and only when the passwords differ and the cross-field check runs. With every per-field rule passing, the whole result is the mismatch check alone. |
| `AuthForm.DefaultValues` | src/components/custom/Auth/Auth.tsx:66-71 | The default values have all four text fields `""` and no profile picture, because `defaultValues` lists no `profilePic`. |
| `AuthForm.Init` | src/components/custom/Auth/Auth.tsx:54-71 | The initial mode is sign-in exactly when the `signin` prop is true. Every text field starts empty, there is no profile picture and no error. |
| `AuthForm.Toggle` | src/components/custom/Auth/Auth.tsx:82-85 | Toggling switches to the other mode. It resets full name, email, password and confirmation to `""`, drops the profile picture and clears the errors. |
| `AuthForm.ToggleTwice` | src/components/custom/Auth/Auth.tsx:82-85 | Toggling twice restores the original mode. The result equals the freshly rendered form for that mode. |
| `AuthForm.Payload` | src/components/custom/Auth/Auth.tsx:103-110 | Sign-in mode yields a sign-in request carrying the form's email and password. Sign-up mode yields registration data. Putting the confirmation back beside that data (`Restore`) rebuilds the form values exactly, so nothing but the confirmation is dropped or altered. |
| `AuthForm.PayloadIgnoresValidationOnlyFields` | src/components/custom/Auth/Auth.tsx:104-108 | The request never depends on the confirmation. In sign-in mode it also never depends on the full name or the profile picture. |
| `AuthForm.RegistrationLosesOnlyConfirmation` | src/components/custom/Auth/Auth.tsx:107-108 | Two forms with the same registration data differ at most in their confirmation. |
| `AuthForm.Submit` | src/components/custom/Auth/Auth.tsx:132 | A disabled button leaves the state unchanged and dispatches nothing. Otherwise the current rule set's issues become the displayed errors. A request is dispatched exactly when the form is accepted, and it is exactly the current mode's `Payload` of the form values. Mode and values are unchanged. |
| `AuthForm.SignInSubmitSendsCredentials` | src/components/custom/Auth/Auth.tsx:104-105 | A valid sign-in submission dispatches exactly `{email, password}` as typed. |
| `AuthForm.SignUpSubmitSendsRegistration` | src/components/custom/Auth/Auth.tsx:106-108 | A valid sign-up submission dispatches email, password, full name and profile picture as typed, and no confirmation. |
| `AuthForm.SubmitDisabled` | src/components/custom/Auth/Auth.tsx:317 | The submit button is disabled exactly when the current mode's request is pending: `signin` in sign-in mode, `register` in sign-up mode. |
| `AuthForm.OnlyOwnRequestBlocks` | src/components/custom/Auth/Auth.tsx:317 | Only the current mode's pending request affects submission. A sign-in in flight does not block sign-up, and the reverse also holds. |

## Left out

- The email grammar is a parameter, because it lives inside the validation library and is not visible.
- When the validation library runs the cross-field check after a per-field failure is a parameter (`CrossCheck`), because it depends on the library's version.
- `AuthSchema.MismatchOnConfirmPassword` is stated only when every per-field rule passes. Outside that case, whether the mismatch is reported depends on the library version.
- Which error the form library shows first, and when it re-validates (on change or on blur), are not modelled. Errors are the full issue list, read per field with `ErrorsOn`.
- String length is the element count of a `seq<char>`. The UTF-16 code-unit count of the original is not modelled.
- The request hooks and HTTP calls are not modelled, because they are network I/O. This covers `src/lib/queryHooks/AuthHooks.ts`, `src/lib/queries/AuthQuery.ts` and their success/error toasts. Their pending flags are an input to `Submit`.
- The image preview (`handleImageChange`, `selectedImage`, the file reader) and the password-visibility toggles are not modelled, because they are browser I/O and display-only state.
- The route change done by the toggle link is not modelled, because it is routing, not form logic.
- Page layout, navigation bar, blog cards and the home page are not modelled, because they are static markup and routing.
- Purity and repeatability of validation are not stated as separate properties. Every operation here is a mathematical function, so they hold by construction.
