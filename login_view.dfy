/** The sign-in screen's `LoginViewModel` (`Views/Auth/LoginView.swift`):
    one form that either signs in or registers, and the session it fills. */
module LoginView {
  import opened Wrappers
  import opened ApiClient
  import AuthManager

  /** `isValid` on the form's fields in either mode. */
  predicate FormValid(registering: bool, name: string, email: string, password: string, confirmPassword: string) {
    if registering then name != "" && email != "" && password != "" && password == confirmPassword
    else email != "" && password != ""
  }

  /** Whatever registration accepts, sign-in accepts too; registration also
      refuses a confirmation that differs, whatever else was typed. */
  lemma RegisterValidImpliesLoginValid(name: string, email: string, password: string, confirmPassword: string)
    ensures FormValid(true, name, email, password, confirmPassword) ==> FormValid(false, name, email, password, confirmPassword)
    ensures password != confirmPassword ==> !FormValid(true, name, email, password, confirmPassword)
    ensures FormValid(false, name, email, password, confirmPassword) <==> email != "" && password != ""
  {
  }

  /** The text shown when the call fails with something other than an API
      error. */
  const UnexpectedErrorMessage := "An unexpected error occurred. Please try again."

  /** The outcome of `login` or `register`: the server's answer, an
      `APIError`, or any other thrown error. */
  datatype CallOutcome = Answered(response: AuthManager.AuthResponse) | ApiFailure(error: ApiError) | OtherFailure

  /** The call `submit` makes. */
  datatype AuthCall =
    | LoginCall(email: string, password: string)
    | RegisterCall(name: string, email: string, password: string, passwordConfirmation: string)

  /** The message a failed call leaves on the form. */
  function FailureMessage(outcome: CallOutcome): (m: Option<string>)
    ensures outcome.Answered? <==> m.None?
    ensures outcome.ApiFailure? ==> m == Some(ErrorDescription(outcome.error))
    ensures outcome.OtherFailure? ==> m == Some(UnexpectedErrorMessage)
  {
    match outcome
    case Answered(_) => None
    case ApiFailure(e) => Some(ErrorDescription(e))
    case OtherFailure => Some(UnexpectedErrorMessage)
  }

  class LoginViewModel {
    var email: string
    var password: string
    var confirmPassword: string
    var name: string
    var isRegistering: bool
    var isLoading: bool
    var errorMessage: Option<string>
    /** `AuthManager.shared`. */
    const session: AuthManager.Session

    constructor(session: AuthManager.Session)
      ensures this.session == session
      ensures email == "" && password == "" && confirmPassword == "" && name == ""
      ensures !isRegistering && !isLoading && errorMessage.None?
    {
      this.session := session;
      email, password, confirmPassword, name := "", "", "", "";
      isRegistering, isLoading, errorMessage := false, false, None;
    }

    predicate IsValid()
      reads this
    {
      FormValid(isRegistering, name, email, password, confirmPassword)
    }

    /** The submit button is enabled only while nothing loads and the form
        is valid. */
    predicate CanSubmit()
      reads this
    {
      !isLoading && IsValid()
    }

    /** `toggleMode`: the other mode, with the error cleared; the fields
        are kept. */
    method ToggleMode()
      modifies this
      ensures isRegistering == !old(isRegistering) && errorMessage.None?
      ensures email == old(email) && password == old(password)
      ensures confirmPassword == old(confirmPassword) && name == old(name) && isLoading == old(isLoading)
    {
      isRegistering := !isRegistering;
      errorMessage := None;
    }

    /** `submit`: registers in register mode and signs in otherwise. An
        answer is saved into the session; a failure leaves its message and
        the session as it was. Loading ends either way. */
    method Submit(outcome: CallOutcome) returns (sent: AuthCall)
      modifies this, session
      ensures sent == if old(isRegistering) then RegisterCall(old(name), old(email), old(password), old(confirmPassword))
                      else LoginCall(old(email), old(password))
      ensures errorMessage == FailureMessage(outcome) && !isLoading
      ensures email == old(email) && password == old(password) && confirmPassword == old(confirmPassword)
      ensures name == old(name) && isRegistering == old(isRegistering)
      ensures outcome.Answered? ==>
        session.keychain == AuthManager.SavedTokens(old(session.keychain), outcome.response) && session.isAuthenticated
      ensures !outcome.Answered? ==>
        session.keychain == old(session.keychain) && session.isAuthenticated == old(session.isAuthenticated) &&
        session.currentUser == old(session.currentUser) && session.storedUser == old(session.storedUser)
    {
      isLoading := true;
      errorMessage := None;
      if isRegistering {
        sent := RegisterCall(name, email, password, confirmPassword);
      } else {
        sent := LoginCall(email, password);
      }
      if outcome.Answered? {
        session.SaveAuthResponse(outcome.response);
      } else {
        errorMessage := FailureMessage(outcome);
      }
      isLoading := false;
    }
  }
}
