/**
 * The submit handler of FrontEnd/invoice-extractor-system/src/pages/ResetPassword.jsx:
 * two local checks with early returns, then the request bracketed by the
 * `loading` flag. The request is a parameter standing for the server's answer.
 */
module ResetPassword {
  import opened Wrappers
  import Text

  const MismatchMessage := "Passwords do not match!"
  const TooShortMessage := "Password must be at least 6 characters."
  const FallbackMessage := "Link expired or invalid. Please request a new one."
  const MinLength := 6

  /** The checks before any request: the mismatch is reported first, then a short password. */
  function Validate(password: string, confirm: string): (err: Option<string>)
    ensures password != confirm ==> err == Some(MismatchMessage)
    ensures password == confirm && |password| < MinLength ==> err == Some(TooShortMessage)
    ensures err.None? <==> password == confirm && |password| >= MinLength
  {
    if password != confirm then Some(MismatchMessage)
    else if |password| < MinLength then Some(TooShortMessage)
    else None
  }

  /** The server's answer to the reset request: success, or a failure with `response.data.error` if present. */
  datatype ServerAnswer = Accepted | Rejected(error: Option<string>)

  /** The page's state fields. */
  class ResetPasswordForm {
    var password: string
    var confirmPassword: string
    var loading: bool
    var error: string
    var success: bool

    /** The initial `useState` values. */
    constructor ()
      ensures password == "" && confirmPassword == "" && !loading && error == "" && !success
    {
      password, confirmPassword := "", "";
      loading, error, success := false, "", false;
    }

    /**
     * `handleSubmit`. A failed check sets its message and sends nothing. Otherwise
     * `loading` is true and `error` empty while the request is out (`sent`,
     * `loadingWhileSent`, `errorWhileSent` describe that moment); afterwards
     * `loading` is false again and either `success` is set or `error` holds
     * the server's message or the fixed fallback.
     */
    method Submit(answer: ServerAnswer) returns (sent: Option<string>, loadingWhileSent: bool, errorWhileSent: string)
      modifies this
      ensures password == old(password) && confirmPassword == old(confirmPassword)
      ensures Validate(old(password), old(confirmPassword)).Some? ==>
        && sent.None?
        && error == Validate(old(password), old(confirmPassword)).value
        && loading == old(loading) && success == old(success)
      ensures Validate(old(password), old(confirmPassword)).None? ==>
        && sent == Some(old(password))
        && loadingWhileSent && errorWhileSent == ""
        && !loading
        && (answer.Accepted? ==> success && error == "")
        && (answer.Rejected? ==> success == old(success) && error == Text.OrElse(answer.error, FallbackMessage))
    {
      loadingWhileSent, errorWhileSent := loading, error;
      if password != confirmPassword {
        error := MismatchMessage;
        return None, loadingWhileSent, errorWhileSent;
      }
      if |password| < MinLength {
        error := TooShortMessage;
        return None, loadingWhileSent, errorWhileSent;
      }
      loading := true;
      error := "";
      sent, loadingWhileSent, errorWhileSent := Some(password), loading, error;
      if answer.Accepted? {
        success := true;
      } else {
        error := Text.OrElse(answer.error, FallbackMessage);
      }
      loading := false;
    }
  }

  /** A short pair that also differs reports the mismatch, never the length. */
  lemma MismatchReportedBeforeLength(password: string, confirm: string)
    requires password != confirm && |password| < MinLength
    ensures Validate(password, confirm) == Some(MismatchMessage)
  {
  }
}
