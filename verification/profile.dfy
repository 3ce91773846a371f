/**
 * The change-password dialog of the profile page
 * (frontend/src/pages/Profile.jsx): three password fields, an error line,
 * the submit handler's ordered validation, and the submit button's
 * disabled rule.
 *
 * Password lengths count characters; JavaScript's `length` counts UTF-16
 * code units, which agrees except for characters outside the Basic
 * Multilingual Plane.
 */
module Profile {
  import opened Wrappers

  datatype PasswordForm = PasswordForm(currentPassword: string, newPassword: string, confirmPassword: string)

  /** The three text fields, by their `name` attribute. */
  datatype Field = CurrentPassword | NewPassword | ConfirmPassword

  /** The dialog's state: open or closed, the field contents, and the error line ('' when none). */
  datatype DialogState = DialogState(open: bool, form: PasswordForm, error: string)

  /** The body of the change-password request: the confirmation is not sent. */
  datatype ChangeRequest = ChangeRequest(currentPassword: string, newPassword: string)

  /** The new state after a submit, and the request issued, if any. */
  datatype SubmitResult = SubmitResult(state: DialogState, request: Option<ChangeRequest>)

  const EmptyForm: PasswordForm := PasswordForm("", "", "")
  const MinPasswordLength: nat := 6
  const MismatchError: string := "Passwords do not match!"
  const LengthError: string := "Password must be at least 6 characters long"

  /** The page as it first renders: dialog closed, fields empty, no error. */
  const InitialDialog: DialogState := DialogState(false, EmptyForm, "")

  /** The handler's checks in order: the mismatch check first, then the length check. */
  function Validate(f: PasswordForm): (e: Option<string>)
    ensures e.None? <==> f.newPassword == f.confirmPassword && |f.newPassword| >= MinPasswordLength
    ensures f.newPassword != f.confirmPassword ==> e == Some(MismatchError)
    ensures f.newPassword == f.confirmPassword && |f.newPassword| < MinPasswordLength ==> e == Some(LengthError)
  {
    if f.newPassword != f.confirmPassword then Some(MismatchError)
    else if |f.newPassword| < MinPasswordLength then Some(LengthError)
    else None
  }

  /** `handlePasswordChange`: writes one field and clears the error. */
  function EditField(st: DialogState, field: Field, value: string): (r: DialogState)
    ensures r.open == st.open && r.error == ""
    ensures r.form.currentPassword == (if field == CurrentPassword then value else st.form.currentPassword)
    ensures r.form.newPassword == (if field == NewPassword then value else st.form.newPassword)
    ensures r.form.confirmPassword == (if field == ConfirmPassword then value else st.form.confirmPassword)
  {
    var f := st.form;
    var f' := match field
      case CurrentPassword => f.(currentPassword := value)
      case NewPassword => f.(newPassword := value)
      case ConfirmPassword => f.(confirmPassword := value);
    st.(form := f', error := "")
  }

  /**
   * `handleChangePassword`: on a failed check, sets the error and changes
   * nothing else; otherwise sends current and new password, closes the
   * dialog and empties the fields. The error line is left as it was.
   */
  function HandleChangePassword(st: DialogState): (r: SubmitResult)
    ensures r.request.Some? <==> Validate(st.form).None?
    ensures r.request.None? ==> r.state == st.(error := Validate(st.form).value)
    ensures r.request.Some? ==>
      && r.request.value == ChangeRequest(st.form.currentPassword, st.form.newPassword)
      && r.state == DialogState(false, EmptyForm, st.error)
  {
    match Validate(st.form)
    case Some(e) => SubmitResult(st.(error := e), None)
    case None =>
      SubmitResult(DialogState(false, EmptyForm, st.error),
                   Some(ChangeRequest(st.form.currentPassword, st.form.newPassword)))
  }

  /** The mismatch check wins over the length check. */
  lemma MismatchTakesPrecedence(st: DialogState)
    requires st.form.newPassword != st.form.confirmPassword
    ensures HandleChangePassword(st).state.error == MismatchError
    ensures HandleChangePassword(st).request.None?
  {
  }

  /** The "Change Password" button opens the dialog and touches nothing else. */
  function OpenDialog(st: DialogState): (r: DialogState)
    ensures r.open && r.form == st.form && r.error == st.error
  {
    st.(open := true)
  }

  /** Closing the dialog, or pressing Cancel: closed, fields empty, no error. */
  function CloseDialog(st: DialogState): (r: DialogState)
    ensures !r.open && r.form == EmptyForm && r.error == ""
    ensures r == InitialDialog
  {
    DialogState(false, EmptyForm, "")
  }

  /** The submit button's `disabled` expression; an empty string is falsy. */
  predicate SubmitDisabled(f: PasswordForm) {
    || f.currentPassword == ""
    || f.newPassword == ""
    || f.newPassword != f.confirmPassword
    || |f.newPassword| < MinPasswordLength
  }

  /**
   * The button agrees with the handler: it is enabled exactly when the
   * handler's checks pass and a current password has been typed, so a
   * click on it always issues the request.
   */
  lemma EnabledMeansValid(f: PasswordForm)
    ensures !SubmitDisabled(f) <==> Validate(f).None? && f.currentPassword != ""
    ensures !SubmitDisabled(f) ==> HandleChangePassword(DialogState(true, f, "")).request.Some?
  {
  }

  /** The inline "Passwords do not match" hint on the confirmation field. */
  predicate ConfirmHintShown(f: PasswordForm) {
    f.confirmPassword != "" && f.newPassword != f.confirmPassword
  }

  /** Whenever the hint shows, the button is disabled. */
  lemma HintDisablesSubmit(f: PasswordForm)
    requires ConfirmHintShown(f)
    ensures SubmitDisabled(f)
  {
  }

  /** The error line is either empty or exactly what the checks say about the current fields. */
  predicate ErrorIsCurrent(st: DialogState) {
    st.error == "" || Validate(st.form) == Some(st.error)
  }

  /** The user's actions on the dialog. */
  datatype Action = Open | Edit(field: Field, value: string) | Submit | Close

  function Step(st: DialogState, act: Action): (r: DialogState) {
    match act
    case Open => OpenDialog(st)
    case Edit(field, value) => EditField(st, field, value)
    case Submit => HandleChangePassword(st).state
    case Close => CloseDialog(st)
  }

  /** Every action keeps the error line current. */
  lemma StepKeepsErrorCurrent(st: DialogState, act: Action)
    requires ErrorIsCurrent(st)
    ensures ErrorIsCurrent(Step(st, act))
  {
  }

  function Run(st: DialogState, acts: seq<Action>): (r: DialogState)
    decreases |acts|
  {
    if |acts| == 0 then st else Run(Step(st, acts[0]), acts[1..])
  }

  /**
   * From the initial page, after any sequence of actions, the error line is
   * current; in particular a successful submit never leaves a stale error.
   */
  lemma {:induction false} ReachableErrorIsCurrent(st: DialogState, acts: seq<Action>)
    requires ErrorIsCurrent(st)
    ensures ErrorIsCurrent(Run(st, acts))
    ensures HandleChangePassword(Run(st, acts)).request.Some? ==> HandleChangePassword(Run(st, acts)).state.error == ""
    decreases |acts|
  {
    if |acts| > 0 {
      StepKeepsErrorCurrent(st, acts[0]);
      ReachableErrorIsCurrent(Step(st, acts[0]), acts[1..]);
    }
  }
}
