/**
 * ViewModel/LoginViewModel.kt: the login screen's state. Each method runs to
 * completion; the ghost field `states` records every value the login state
 * takes, so the intermediate `Loading` is visible to the contracts.
 */
module LoginVM {
  import opened Wrappers
  import opened Text
  import opened AppErrors
  import opened Models
  import opened Validation
  import opened UserStore
  import opened UserRepo

  /** `getErrorDetails`: the error's code and user message. */
  function GetErrorDetails(errorState: AuthState): (details: (string, string))
    requires errorState.Error?
    ensures details.0 == errorState.error.Code() && details.1 == errorState.error.UserMessage()
  {
    (errorState.error.Code(), errorState.error.UserMessage())
  }

  /** The code in the details of a named error gives back that error. */
  lemma ErrorDetailsIdentifyNamed(e: AppError)
    requires e.IsNamed()
    ensures FromCode(GetErrorDetails(Error(e)).0) == e
  {
    FromCodeRoundTrip(e);
  }

  /** `getDebugInfo`: "Code: <code>, Debug: <debug message or No debug info>". */
  function GetDebugInfo(errorState: AuthState): (info: string)
    requires errorState.Error?
    ensures var e := errorState.error;
            info == "Code: " + e.Code() + ", Debug: " + e.DebugMessage().GetOr("No debug info")
  {
    var error := errorState.error;
    "Code: " + error.Code() + ", Debug: " + error.DebugMessage().GetOr("No debug info")
  }

  /** The debug line starts with the code and ends with the debug message when there is one. */
  lemma DebugInfoParts(e: AppError)
    ensures var info := GetDebugInfo(Error(e));
            var head := "Code: " + e.Code() + ", Debug: ";
            && |head| <= |info|
            && info[..|head|] == head
            && info[|head|..] == (if e.DebugMessage().Some? then e.DebugMessage().value else "No debug info")
  {
    var info := GetDebugInfo(Error(e));
    var head := "Code: " + e.Code() + ", Debug: ";
    assert info == head + e.DebugMessage().GetOr("No debug info");
  }

  /** What `login` leaves in the state: the first failing check, or the repository's answer. */
  function LoginResult(rows: UserTable, email: string, password: string, now: int, store: StoreCall): AuthState
    requires UsersKeyed(rows)
  {
    if IsBlank(email) || IsBlank(password) then Error(EmptyFields)
    else if !IsValidEmail(email) then Error(InvalidEmailFormat)
    else LoginOutcome(rows, LoginRequest(email, password), now, store)
  }

  /**
   * Blank fields are reported before a malformed email; only well-formed
   * input reaches the repository. The view model's checks pass exactly
   * when `validateLogin` does.
   */
  lemma LoginResultChecks(rows: UserTable, email: string, password: string, now: int, store: StoreCall)
    requires UsersKeyed(rows)
    ensures var r := LoginResult(rows, email, password, now, store);
            && (IsBlank(email) || IsBlank(password) <==> r == Error(EmptyFields))
            && (!IsBlank(email) && !IsBlank(password) && !IsValidEmail(email) ==> r == Error(InvalidEmailFormat))
            && (ValidateLogin(email, password).Valid? <==> !IsBlank(email) && !IsBlank(password) && IsValidEmail(email))
  {
    var r := LoginResult(rows, email, password, now, store);
    if !IsBlank(email) && !IsBlank(password) && IsValidEmail(email) {
      var e := GetUserByEmail(rows, email);
      assert r == LoginOutcome(rows, LoginRequest(email, password), now, store);
      assert r != Error(EmptyFields) by {
        LoginErrorsNotEmpty(rows, LoginRequest(email, password), now, store);
      }
    }
  }

  /**
   * The two check orders differ on a malformed email with a blank password:
   * the view model reports EmptyFields, `validateLogin` InvalidEmailFormat.
   */
  lemma LoginCheckOrderDiffers(rows: UserTable, now: int, store: StoreCall)
    requires UsersKeyed(rows)
    ensures LoginResult(rows, "ab", "", now, store) == Error(EmptyFields)
    ensures ValidateLogin("ab", "").Invalid? && ValidateLogin("ab", "").appError == InvalidEmailFormat
  {
    assert LocalRun("ab") == 2 by {
      assert "ab"[1..] == "b";
      assert "b"[1..] == "";
    }
    assert !IsValidEmail("ab");
    assert !IsBlank("ab") by {
      assert !IsWhitespace("ab"[0]);
    }
  }

  /** The repository never reports EmptyFields. */
  lemma LoginErrorsNotEmpty(rows: UserTable, request: LoginRequest, now: int, store: StoreCall)
    requires UsersKeyed(rows)
    ensures LoginOutcome(rows, request, now, store) != Error(EmptyFields)
  {
  }

  /** LoginViewModel. */
  class LoginViewModel {
    const repo: UserRepository
    var loginState: AuthState
    var email: string
    var password: string
    ghost var states: seq<AuthState>

    ghost predicate Valid()
      reads this, repo, repo.dao
    {
      repo.Valid() && |states| > 0 && states[|states| - 1] == loginState
    }

    constructor (repo: UserRepository)
      requires repo.Valid()
      ensures Valid() && this.repo == repo
      ensures loginState == Idle && email == "" && password == "" && states == [Idle]
    {
      this.repo := repo;
      loginState := Idle;
      email := "";
      password := "";
      states := [Idle];
    }

    /** `onEmailChanged`: sets the email and nothing else. */
    method OnEmailChanged(newEmail: string)
      requires Valid()
      modifies this
      ensures Valid()
      ensures email == newEmail && password == old(password)
      ensures loginState == old(loginState) && states == old(states)
    {
      email := newEmail;
    }

    /** `onPasswordChanged`: sets the password and nothing else. */
    method OnPasswordChanged(newPassword: string)
      requires Valid()
      modifies this
      ensures Valid()
      ensures password == newPassword && email == old(email)
      ensures loginState == old(loginState) && states == old(states)
    {
      password := newPassword;
    }

    /**
     * `login`: the state becomes Loading, then the first failing check's
     * error or the repository's answer. The users table changes only
     * through the repository, so never when a check fails.
     */
    method Login(now: int, store: StoreCall)
      requires Valid()
      modifies this, repo.dao
      ensures Valid()
      ensures email == old(email) && password == old(password)
      ensures states == old(states) + [Loading, loginState]
      ensures loginState == LoginResult(old(repo.dao.rows), email, password, now, store)
      ensures IsBlank(email) || IsBlank(password) || !IsValidEmail(email) ==> repo.dao.rows == old(repo.dao.rows)
      ensures !IsBlank(email) && !IsBlank(password) && IsValidEmail(email) ==>
        repo.dao.rows == LoginTable(old(repo.dao.rows), LoginRequest(email, password), now, store)
    {
      loginState := Loading;
      states := states + [loginState];
      if IsBlank(email) || IsBlank(password) {
        loginState := Error(EmptyFields);
        states := states + [loginState];
        return;
      }
      if !IsValidEmail(email) {
        loginState := Error(InvalidEmailFormat);
        states := states + [loginState];
        return;
      }
      var request := LoginRequest(email, password);
      loginState := repo.Login(request, now, store);
      states := states + [loginState];
    }

    /** `clearError`: an Error state becomes Idle; any other state stays. */
    method ClearError()
      requires Valid()
      modifies this
      ensures Valid()
      ensures loginState == if old(loginState).Error? then Idle else old(loginState)
      ensures states == if old(loginState).Error? then old(states) + [Idle] else old(states)
      ensures email == old(email) && password == old(password)
    {
      if loginState.Error? {
        loginState := Idle;
        states := states + [loginState];
      }
    }
  }
}
