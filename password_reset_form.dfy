/** The new-password form: its three checks, in their order, and the state
    it is left in after a submit. The `resetPassword` action's reply is a
    parameter. */
module ResetForm {
  import opened Common
  import opened Actions

  const MISMATCH := "Passwords do not match"
  const TOO_SHORT := "Password must be at least 8 characters long"
  const TOKEN_MISSING := "Reset token is missing"
  const FALLBACK := "An error occurred"
  const MIN_LENGTH := 8

  /** The first failing check, if any: matching passwords, then a length of
      at least 8, then a token. */
  function ValidationError(password: string, confirmPassword: string, token: string): (e: Option<string>)
    ensures e == Some(MISMATCH) <==> password != confirmPassword
    ensures e == Some(TOO_SHORT) <==> password == confirmPassword && |password| < MIN_LENGTH
    ensures e == Some(TOKEN_MISSING) <==>
              password == confirmPassword && |password| >= MIN_LENGTH && token == ""
    ensures e.None? <==> password == confirmPassword && |password| >= MIN_LENGTH && token != ""
  {
    if password != confirmPassword then Some(MISMATCH)
    else if |password| < MIN_LENGTH then Some(TOO_SHORT)
    else if token == "" then Some(TOKEN_MISSING)
    else None
  }

  /** The mismatch is reported however short the passwords and whether or
      not there is a token; a short password is reported before a missing
      token. */
  lemma ValidationOrder(password: string, confirmPassword: string)
    requires password != confirmPassword
    ensures ValidationError(password, confirmPassword, "") == Some(MISMATCH)
    ensures ValidationError("short", "short", "") == Some(TOO_SHORT)
  {
  }

  /** `disabled={isLoading || !token}`. */
  predicate SubmitDisabled(isLoading: bool, token: string) {
    isLoading || token == ""
  }

  /** The message shown when the action does not succeed. */
  function FailureMessage(reply: Call<ActionResult<Json>>): (m: string)
    requires !(reply.Returned? && reply.value.Success?)
    ensures reply.Returned? && reply.value.error != "" ==> m == reply.value.error
    ensures reply.Returned? && reply.value.error == "" ==> m == FALLBACK
    ensures reply.Threw? ==> m == MessageOr(reply.error, FALLBACK)
  {
    match reply
    case Returned(r) => if r.error != "" then r.error else FALLBACK
    case Threw(e) => MessageOr(e, FALLBACK)
  }

  class Form {
    const token: string
    var password: string
    var confirmPassword: string
    var isLoading: bool
    var error: string
    var success: bool

    constructor(token: string)
      ensures this.token == token && password == "" && confirmPassword == ""
      ensures !isLoading && error == "" && !success
    {
      this.token := token;
      password := "";
      confirmPassword := "";
      isLoading := false;
      error := "";
      success := false;
    }

    /** `handleSubmit`. It reports whether the action was called; `reply`
      is what that call gives. A failed check never calls it, and every
      path ends with the form no longer loading; success schedules the
      redirect to the login page. */
    method HandleSubmit(reply: Call<ActionResult<Json>>) returns (calledReset: bool)
      modifies this`isLoading, this`error, this`success
      ensures !isLoading
      ensures calledReset <==> ValidationError(password, confirmPassword, token).None?
      ensures !calledReset ==> error == ValidationError(password, confirmPassword, token).value && !success
      ensures calledReset && reply.Returned? && reply.value.Success? ==> success && error == ""
      ensures calledReset && !(reply.Returned? && reply.value.Success?) ==>
                !success && error == FailureMessage(reply)
    {
      isLoading := true;
      error := "";
      success := false;
      if password != confirmPassword {
        error := MISMATCH;
        isLoading := false;
        return false;
      }
      if |password| < MIN_LENGTH {
        error := TOO_SHORT;
        isLoading := false;
        return false;
      }
      if token == "" {
        error := TOKEN_MISSING;
        isLoading := false;
        return false;
      }
      calledReset := true;
      if reply.Returned? && reply.value.Success? {
        success := true;
      } else {
        error := FailureMessage(reply);
      }
      isLoading := false;
    }
  }
}
