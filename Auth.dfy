/** `ui/viewmodel/AuthViewModel.kt`: input validation for sign-up and sign-in,
    and the state a request moves through. */
module Auth {
  import opened KotlinCore
  import opened Text
  import opened Store
  import opened Repository

  datatype AuthUiState = AuthUiState(
    isLoading: bool,
    errorMessage: Option<string>,
    isSuccess: bool,
    userId: Option<string>)

  /** `AuthUiState()`. */
  const DefaultAuthUiState := AuthUiState(false, None, false, None)

  const FILL_ALL_FIELDS := "Please fill all fields"
  const PASSWORD_TOO_SHORT := "Password must be at least 6 characters"
  const MIN_PASSWORD_LENGTH := 6

  /** The verdict of the checks run before any request. */
  datatype Validation = Accepted | Refused(message: string)

  /** `register`'s checks, in order: blank fields first, then the password's
      length in UTF-16 code units. */
  function RegisterValidation(email: string, password: string, name: string): (v: Validation)
    ensures v == Refused(FILL_ALL_FIELDS) <==> IsBlank(email) || IsBlank(password) || IsBlank(name)
    ensures v == Refused(PASSWORD_TOO_SHORT) <==>
      !IsBlank(email) && !IsBlank(password) && !IsBlank(name) && Utf16Length(password) < MIN_PASSWORD_LENGTH
    ensures v == Accepted <==>
      !IsBlank(email) && !IsBlank(password) && !IsBlank(name) && Utf16Length(password) >= MIN_PASSWORD_LENGTH
  {
    if IsBlank(email) || IsBlank(password) || IsBlank(name) then Refused(FILL_ALL_FIELDS)
    else if Utf16Length(password) < MIN_PASSWORD_LENGTH then Refused(PASSWORD_TOO_SHORT)
    else Accepted
  }

  /** `login`'s only check: no blank field. */
  function LoginValidation(email: string, password: string): (v: Validation)
    ensures v == Refused(FILL_ALL_FIELDS) <==> IsBlank(email) || IsBlank(password)
    ensures v == Accepted <==> !IsBlank(email) && !IsBlank(password)
  {
    if IsBlank(email) || IsBlank(password) then Refused(FILL_ALL_FIELDS) else Accepted
  }

  /** Sign-in has no length rule: a short password that sign-up refuses is let
      through `login`. */
  lemma LoginHasNoLengthRule()
    ensures RegisterValidation("a@b.c", "abc", "Ann") == Refused(PASSWORD_TOO_SHORT)
    ensures LoginValidation("a@b.c", "abc") == Accepted
  {
    assert "a@b.c"[0] == 'a' && "abc"[0] == 'a' && "Ann"[0] == 'A';
    assert !IsBlank("a@b.c") && !IsBlank("abc") && !IsBlank("Ann");
    assert Utf16Length("abc") == 3;
  }

  /** Sign-up accepts exactly the inputs sign-in accepts whose password has at
      least six UTF-16 code units and whose name is not blank. */
  lemma RegisterIsLoginPlusRules(email: string, password: string, name: string)
    ensures RegisterValidation(email, password, name) == Accepted <==>
      LoginValidation(email, password) == Accepted && !IsBlank(name) && Utf16Length(password) >= MIN_PASSWORD_LENGTH
  {
  }

  /** The launched request begins: loading, with no error shown. */
  function Started(s: AuthUiState): (r: AuthUiState)
    ensures r.isLoading && r.errorMessage.None?
    ensures r.isSuccess == s.isSuccess && r.userId == s.userId
  {
    s.(isLoading := true, errorMessage := None)
  }

  /** The request completes: a uid marks success; an exception shows its
      message, or `fallback` when it has none. */
  function Completed(s: AuthUiState, r: Result<string>, fallback: string): (s': AuthUiState)
    ensures !s'.isLoading
    ensures r.Success? ==> s'.isSuccess && s'.userId == Some(r.value) && s'.errorMessage == s.errorMessage
    ensures r.Failure? ==>
      (s'.errorMessage == Some(r.error.message.GetOr(fallback)) && s'.isSuccess == s.isSuccess && s'.userId == s.userId)
  {
    match r
    case Success(uid) => s.(isLoading := false, isSuccess := true, userId := Some(uid))
    case Failure(e) => s.(isLoading := false, errorMessage := Some(e.message.GetOr(fallback)))
  }

  /** A whole request as a user sees it: loading ends, and exactly one of
      "success" and "error" is new. A failure after an earlier success keeps
      `isSuccess` and `userId`, since the failure branch does not reset them. */
  lemma {:induction false} RequestOutcome(s: AuthUiState, r: Result<string>, fallback: string)
    ensures var s' := Completed(Started(s), r, fallback);
      && !s'.isLoading
      && (s'.errorMessage.Some? <==> r.Failure?)
      && (r.Success? ==> s'.isSuccess && s'.userId == Some(r.value))
      && (r.Failure? ==> s'.isSuccess == s.isSuccess && s'.userId == s.userId)
  {
    var started := Started(s);
    assert started.errorMessage.None?;
  }

  class AuthViewModel {
    const repository: FirebaseRepository
    var uiState: AuthUiState

    constructor (repository: FirebaseRepository)
      ensures this.repository == repository && uiState == DefaultAuthUiState
    {
      this.repository := repository;
      uiState := DefaultAuthUiState;
    }

    /** `register(email, password, name)`: a refused input only shows its error
        and reaches no server; otherwise the registration runs and its result
        is shown. */
    method Register(email: string, password: string, name: string, auth: AuthOutcome,
                    profileWrite: WriteOutcome, statusWrite: WriteOutcome)
      modifies this, repository.database
      ensures RegisterValidation(email, password, name).Refused? ==>
        && uiState == old(uiState).(errorMessage := Some(RegisterValidation(email, password, name).message))
        && repository.database.tree == old(repository.database.tree)
      ensures RegisterValidation(email, password, name) == Accepted ==>
        var (t, r) := RegisterEffect(old(repository.database.tree), email, name, auth, profileWrite, statusWrite);
        && repository.database.tree == t
        && uiState == Completed(Started(old(uiState)), r, "Registration failed")
    {
      if IsBlank(email) || IsBlank(password) || IsBlank(name) {
        uiState := uiState.(errorMessage := Some(FILL_ALL_FIELDS));
        return;
      }
      if Utf16Length(password) < MIN_PASSWORD_LENGTH {
        uiState := uiState.(errorMessage := Some(PASSWORD_TOO_SHORT));
        return;
      }
      uiState := Started(uiState);
      var r := repository.RegisterUser(email, password, name, auth, profileWrite, statusWrite);
      uiState := Completed(uiState, r, "Registration failed");
    }

    /** `login(email, password)`: as `register`, with only the blank check. */
    method Login(email: string, password: string, auth: AuthOutcome, statusWrite: WriteOutcome)
      modifies this, repository.database
      ensures LoginValidation(email, password).Refused? ==>
        && uiState == old(uiState).(errorMessage := Some(FILL_ALL_FIELDS))
        && repository.database.tree == old(repository.database.tree)
      ensures LoginValidation(email, password) == Accepted ==>
        var (t, r) := LoginEffect(old(repository.database.tree), auth, statusWrite);
        && repository.database.tree == t
        && uiState == Completed(Started(old(uiState)), r, "Login failed")
    {
      if IsBlank(email) || IsBlank(password) {
        uiState := uiState.(errorMessage := Some(FILL_ALL_FIELDS));
        return;
      }
      uiState := Started(uiState);
      var r := repository.LoginUser(email, password, auth, statusWrite);
      uiState := Completed(uiState, r, "Login failed");
    }

    /** `clearError()`: only `errorMessage` changes, to null. */
    method ClearError()
      modifies this
      ensures uiState == old(uiState).(errorMessage := None)
    {
      uiState := uiState.(errorMessage := None);
    }

    /** `resetState()`: back to the initial state. */
    method ResetState()
      modifies this
      ensures uiState == DefaultAuthUiState
    {
      uiState := DefaultAuthUiState;
    }
  }
}
