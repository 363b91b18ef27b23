/**
 * The registration form: three fields checked in a fixed order before the
 * account is requested.
 */
module RegisterPage {
  import opened Wrappers

  const FillInAll := "Please fill in all fields"
  const Mismatch := "Passwords do not match"
  const TooShort := "Password must be at least 6 characters long"
  const RegisterFailed := "Failed to register"
  const Unexpected := "An unexpected error occurred"

  /** `validatePassword`: at least six characters. */
  predicate ValidatePassword(password: string)
  {
    |password| >= 6
  }

  /**
   * The first failing check, in the order the form applies them: a blank
   * field, then differing passwords, then a short password.
   */
  function ValidationError(email: string, password: string, confirm: string): (e: Option<string>)
    ensures e == Some(FillInAll) <==> email == "" || password == "" || confirm == ""
    ensures e == Some(Mismatch) <==> email != "" && password != "" && confirm != "" && password != confirm
    ensures e == Some(TooShort) <==>
      email != "" && password != "" && confirm != "" && password == confirm && !ValidatePassword(password)
    ensures e.None? <==> email != "" && password == confirm && ValidatePassword(password)
    ensures e.Some? ==> e.value in {FillInAll, Mismatch, TooShort}
  {
    if email == "" || password == "" || confirm == "" then Some(FillInAll)
    else if password != confirm then Some(Mismatch)
    else if !ValidatePassword(password) then Some(TooShort)
    else None
  }

  /** What `register` answers: an account (possibly without a user), an error with a message, or an exception. */
  datatype Reply = Registered(hasUser: bool) | Rejected(message: string) | Threw

  /** The error the form shows after `register` answers: the message, or the fallback for an empty one. */
  function ReplyError(reply: Reply): (e: Option<string>)
    ensures reply.Registered? <==> e.None?
    ensures reply.Rejected? && reply.message != "" ==> e == Some(reply.message)
    ensures reply.Rejected? && reply.message == "" ==> e == Some(RegisterFailed)
    ensures reply.Threw? ==> e == Some(Unexpected)
  {
    match reply
    case Registered(_) => None
    case Rejected(m) => Some(if m == "" then RegisterFailed else m)
    case Threw => Some(Unexpected)
  }

  class RegisterForm {
    var email: string
    var password: string
    var confirmPassword: string
    var error: Option<string>
    var isLoading: bool
    var navigated: bool

    constructor ()
      ensures email == "" && password == "" && confirmPassword == ""
      ensures error == None && !isLoading && !navigated
    {
      email, password, confirmPassword := "", "", "";
      error, isLoading, navigated := None, false, false;
    }

    /**
     * `handleSubmit`: `register` is called only when every check passes; the
     * error is then cleared and replaced by the reply's, and the dashboard
     * is opened once a user comes back.
     */
    method HandleSubmit(reply: Reply) returns (calledRegister: bool)
      modifies this
      ensures calledRegister <==> ValidationError(email, password, confirmPassword).None?
      ensures email == old(email) && password == old(password) && confirmPassword == old(confirmPassword)
      ensures !calledRegister ==>
        error == ValidationError(email, password, confirmPassword) && isLoading == old(isLoading) && navigated == old(navigated)
      ensures calledRegister ==>
        error == ReplyError(reply) && !isLoading && navigated == (old(navigated) || reply == Registered(true))
    {
      if email == "" || password == "" || confirmPassword == "" {
        error := Some(FillInAll);
        return false;
      }
      if password != confirmPassword {
        error := Some(Mismatch);
        return false;
      }
      if !ValidatePassword(password) {
        error := Some(TooShort);
        return false;
      }
      isLoading := true;
      error := None;
      calledRegister := true;
      match reply {
        case Rejected(m) =>
          error := Some(if m == "" then RegisterFailed else m);
        case Threw =>
          error := Some(Unexpected);
        case Registered(hasUser) =>
          if hasUser {
            navigated := true;
          }
      }
      isLoading := false;
    }
  }

  /** A password the form accepts is at least six characters long, and so is its confirmation. */
  lemma AcceptedPasswordsAreLong(email: string, password: string, confirm: string)
    requires ValidationError(email, password, confirm).None?
    ensures |password| >= 6 && |confirm| >= 6 && password == confirm && email != ""
  {
  }
}
