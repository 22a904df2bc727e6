/** frontend/src/pages/Signup.tsx: the checks `handleSubmit` makes before it
    calls `register`, and the form state they leave behind. */
module Signup {
  import opened Shared

  const MismatchMessage := "Passwords do not match"
  const TooShortMessage := "Password must be at least 6 characters"
  const DefaultFailure := "Registration failed"
  const MinPasswordLength := 6

  /** The first failing check, if any: the passwords must match, and only
      then is the length checked. */
  function PasswordError(password: string, confirmPassword: string): (e: Option<string>)
    ensures e.None? <==> password == confirmPassword && |password| >= MinPasswordLength
    ensures e.Some? ==> e.value == MismatchMessage || e.value == TooShortMessage
    ensures e == Some(TooShortMessage) ==> password == confirmPassword
  {
    if password != confirmPassword then Some(MismatchMessage)
    else if |password| < MinPasswordLength then Some(TooShortMessage)
    else None
  }

  /** A mismatch is reported even when the password is also too short. */
  lemma MismatchFirst(password: string, confirmPassword: string)
    requires password != confirmPassword
    ensures PasswordError(password, confirmPassword) == Some(MismatchMessage)
  {
  }

  /** `err.message || "Registration failed"`: never an empty message. */
  function FailureMessage(message: Option<string>): (r: string)
    ensures r != ""
    ensures Truthy(message) ==> r == message.value
    ensures !Truthy(message) ==> r == DefaultFailure
  {
    if Truthy(message) then message.value else DefaultFailure
  }

  /** What `register` did: succeeded, or threw an error with this message. */
  datatype RegisterOutcome = Registered | Rejected(message: Option<string>)

  /** The message the form shows after a submit. */
  function SubmitError(password: string, confirmPassword: string, outcome: RegisterOutcome): (e: string)
    ensures PasswordError(password, confirmPassword).Some? ==> e == PasswordError(password, confirmPassword).value
    ensures PasswordError(password, confirmPassword).None? ==> (e == "" <==> outcome.Registered?)
  {
    match PasswordError(password, confirmPassword)
    case Some(message) => message
    case None => if outcome.Registered? then "" else FailureMessage(outcome.message)
  }

  class SignupForm {
    var name: string
    var email: string
    var password: string
    var confirmPassword: string
    var error: string
    var loading: bool
    /** The `register(name, email, password)` calls made, in order. */
    var registrations: seq<(string, string, string)>

    constructor ()
      ensures name == "" && email == "" && password == "" && confirmPassword == ""
      ensures error == "" && !loading && registrations == []
    {
      name, email, password, confirmPassword := "", "", "", "";
      error, loading, registrations := "", false, [];
    }

    /** `handleSubmit`: the error is cleared, then the checks run in order;
        the first failing one sets its message and returns with `loading`
        untouched. When both pass, `register` is called with the entered
        values and `loading` ends false whatever its outcome. */
    method HandleSubmit(outcome: RegisterOutcome)
      modifies this`error, this`loading, this`registrations
      ensures error == SubmitError(password, confirmPassword, outcome)
      ensures PasswordError(password, confirmPassword).Some? ==>
        loading == old(loading) && registrations == old(registrations)
      ensures PasswordError(password, confirmPassword).None? ==>
        !loading && registrations == old(registrations) + [(name, email, password)]
    {
      error := "";
      if password != confirmPassword {
        error := MismatchMessage;
        return;
      }
      if |password| < MinPasswordLength {
        error := TooShortMessage;
        return;
      }
      loading := true;
      registrations := registrations + [(name, email, password)];
      if outcome.Rejected? {
        error := FailureMessage(outcome.message);
      }
      loading := false;
    }
  }
}
