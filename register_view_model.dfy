/**
 * ViewModel/RegisterViewModel.kt: the registration form. Each method runs to
 * completion; the ghost field `states` records every value the register
 * state takes.
 */
module RegisterVM {
  import opened Wrappers
  import opened Text
  import opened AppErrors
  import opened Models
  import opened Validation
  import opened UserStore
  import opened UserRepo

  const EmailField := "email"
  const PasswordField := "password"
  const ConfirmField := "confirmPassword"

  /** `updateFieldError`: an error result records its field message, a valid one clears the field. */
  function UpdatedErrors(errors: map<string, string>, fieldName: string, result: ValidationResult): (r: map<string, string>)
    ensures result.Invalid? ==> fieldName in r && r[fieldName] == result.fieldMessage
    ensures result.Valid? ==> fieldName !in r
    ensures forall k :: k != fieldName ==> (k in r <==> k in errors) && (k in r ==> r[k] == errors[k])
  {
    if result.Invalid? then errors[fieldName := result.fieldMessage] else errors - {fieldName}
  }

  /** A stored error for a field is that field's current validation failure. */
  ghost predicate Reports(errors: map<string, string>, fieldName: string, result: ValidationResult) {
    fieldName in errors ==> result.Invalid? && errors[fieldName] == result.fieldMessage
  }

  /** After `updateFieldError`, the field's entry is exactly the result's message, or absent. */
  lemma UpdatedErrorsReports(errors: map<string, string>, fieldName: string, result: ValidationResult)
    ensures Reports(UpdatedErrors(errors, fieldName, result), fieldName, result)
    ensures fieldName in UpdatedErrors(errors, fieldName, result) <==> result.Invalid?
  {
  }

  /** The strength and, for a non-empty password, the requirements belong to that password. */
  ghost predicate PasswordDerived(password: string, strength: PasswordStrength, requirements: map<string, bool>) {
    && strength == CheckPasswordStrength(password)
    && (password != "" ==> requirements == GetPasswordRequirements(password))
  }

  /** Only the three form fields carry errors, and each is that field's current failure. */
  ghost predicate ErrorsCurrent(errors: map<string, string>, email: string, password: string, confirmPassword: string) {
    && errors.Keys <= {EmailField, PasswordField, ConfirmField}
    && Reports(errors, EmailField, ValidateEmail(email))
    && Reports(errors, PasswordField, ValidatePassword(password))
    && Reports(errors, ConfirmField, ValidateConfirmPassword(password, confirmPassword))
  }

  /** `areAllPasswordRequirementsMet`: every entry is true; an empty map qualifies. */
  predicate AllMet(requirements: map<string, bool>) {
    forall k :: k in requirements ==> requirements[k]
  }

  /** RegisterViewModel. */
  class RegisterViewModel {
    const repo: UserRepository
    var registerState: AuthState
    var email: string
    var password: string
    var confirmPassword: string
    var isPasswordVisible: bool
    var isConfirmPasswordVisible: bool
    var passwordStrength: PasswordStrength
    var fieldErrors: map<string, string>
    var passwordRequirements: map<string, bool>
    ghost var states: seq<AuthState>

    /**
     * The strength always belongs to the current password; the requirements
     * do too unless the password is empty (`resetForm` keeps the old map).
     * That the field errors stay current is proved step by step below
     * (`ErrorsCurrent`), on the values the methods compute.
     */
    ghost predicate Valid()
      reads this, repo, repo.dao
    {
      && repo.Valid()
      && |states| > 0 && states[|states| - 1] == registerState
      && PasswordDerived(password, passwordStrength, passwordRequirements)
    }

    constructor (repo: UserRepository)
      requires repo.Valid()
      ensures Valid() && this.repo == repo
      ensures registerState == Idle && states == [Idle]
      ensures email == "" && password == "" && confirmPassword == ""
      ensures !isPasswordVisible && !isConfirmPasswordVisible
      ensures passwordStrength == WEAK && fieldErrors == map[] && passwordRequirements == map[]
    {
      this.repo := repo;
      registerState := Idle;
      email := "";
      password := "";
      confirmPassword := "";
      isPasswordVisible := false;
      isConfirmPasswordVisible := false;
      passwordStrength := WEAK;
      fieldErrors := map[];
      passwordRequirements := map[];
      states := [Idle];
      EmptyPasswordIsWeak();
    }

    /** `isFormValid`. */
    function IsFormValid(): (b: bool)
      reads this
      ensures b <==> fieldErrors == map[] && !IsBlank(email) && !IsBlank(password) &&
                     !IsBlank(confirmPassword) && AllMet(passwordRequirements)
    {
      |fieldErrors| == 0 && !IsBlank(email) && !IsBlank(password) && !IsBlank(confirmPassword) &&
      AreAllPasswordRequirementsMet()
    }

    /** `areAllPasswordRequirementsMet`. */
    function AreAllPasswordRequirementsMet(): (b: bool)
      reads this
      ensures b <==> AllMet(passwordRequirements)
    {
      forall k :: k in passwordRequirements ==> passwordRequirements[k]
    }

    /** `onEmailChanged`: set the email and revalidate it. */
    method OnEmailChanged(newEmail: string)
      requires Valid()
      modifies this
      ensures Valid()
      ensures email == newEmail
      ensures fieldErrors == UpdatedErrors(old(fieldErrors), EmailField, ValidateEmail(newEmail))
      ensures password == old(password) && confirmPassword == old(confirmPassword)
      ensures passwordStrength == old(passwordStrength) && passwordRequirements == old(passwordRequirements)
      ensures registerState == old(registerState) && states == old(states)
      ensures isPasswordVisible == old(isPasswordVisible) && isConfirmPasswordVisible == old(isConfirmPasswordVisible)
    {
      email := newEmail;
      ValidateEmailField();
    }

    /** `validateEmailField`: record or clear the email's error. */
    method ValidateEmailField()
      requires Valid()
      modifies this
      ensures Valid()
      ensures fieldErrors == UpdatedErrors(old(fieldErrors), EmailField, ValidateEmail(email))
      ensures email == old(email) && password == old(password) && confirmPassword == old(confirmPassword)
      ensures passwordStrength == old(passwordStrength) && passwordRequirements == old(passwordRequirements)
      ensures registerState == old(registerState) && states == old(states)
      ensures isPasswordVisible == old(isPasswordVisible) && isConfirmPasswordVisible == old(isConfirmPasswordVisible)
    {
      fieldErrors := UpdatedErrors(fieldErrors, EmailField, ValidateEmail(email));
    }

    /**
     * `onPasswordChanged`: set the password, its strength and its
     * requirements, then revalidate the password and the confirmation.
     */
    method OnPasswordChanged(newPassword: string)
      requires Valid()
      modifies this
      ensures Valid()
      ensures password == newPassword
      ensures passwordStrength == CheckPasswordStrength(newPassword)
      ensures passwordRequirements == GetPasswordRequirements(newPassword)
      ensures fieldErrors == UpdatedErrors(UpdatedErrors(old(fieldErrors), PasswordField, ValidatePassword(newPassword)),
                                           ConfirmField, ValidateConfirmPassword(newPassword, confirmPassword))
      ensures email == old(email) && confirmPassword == old(confirmPassword)
      ensures registerState == old(registerState) && states == old(states)
      ensures isPasswordVisible == old(isPasswordVisible) && isConfirmPasswordVisible == old(isConfirmPasswordVisible)
    {
      password := newPassword;
      passwordStrength := CheckPasswordStrength(newPassword);
      passwordRequirements := GetPasswordRequirements(newPassword);
      ValidatePasswordField();
      ValidateConfirmPasswordField();
    }

    /** `validatePasswordField`: record or clear the password's error. */
    method ValidatePasswordField()
      requires Valid()
      modifies this
      ensures Valid()
      ensures fieldErrors == UpdatedErrors(old(fieldErrors), PasswordField, ValidatePassword(password))
      ensures email == old(email) && password == old(password) && confirmPassword == old(confirmPassword)
      ensures passwordStrength == old(passwordStrength) && passwordRequirements == old(passwordRequirements)
      ensures registerState == old(registerState) && states == old(states)
      ensures isPasswordVisible == old(isPasswordVisible) && isConfirmPasswordVisible == old(isConfirmPasswordVisible)
    {
      fieldErrors := UpdatedErrors(fieldErrors, PasswordField, ValidatePassword(password));
    }

    /** `validateConfirmPasswordField`: record or clear the confirmation's error. */
    method ValidateConfirmPasswordField()
      requires Valid()
      modifies this
      ensures Valid()
      ensures fieldErrors == UpdatedErrors(old(fieldErrors), ConfirmField, ValidateConfirmPassword(password, confirmPassword))
      ensures email == old(email) && password == old(password) && confirmPassword == old(confirmPassword)
      ensures passwordStrength == old(passwordStrength) && passwordRequirements == old(passwordRequirements)
      ensures registerState == old(registerState) && states == old(states)
      ensures isPasswordVisible == old(isPasswordVisible) && isConfirmPasswordVisible == old(isConfirmPasswordVisible)
    {
      fieldErrors := UpdatedErrors(fieldErrors, ConfirmField, ValidateConfirmPassword(password, confirmPassword));
    }

    /** `onConfirmPasswordChanged`: set the confirmation and revalidate it. */
    method OnConfirmPasswordChanged(newConfirmPassword: string)
      requires Valid()
      modifies this
      ensures Valid()
      ensures confirmPassword == newConfirmPassword
      ensures fieldErrors == UpdatedErrors(old(fieldErrors), ConfirmField, ValidateConfirmPassword(password, newConfirmPassword))
      ensures email == old(email) && password == old(password)
      ensures passwordStrength == old(passwordStrength) && passwordRequirements == old(passwordRequirements)
      ensures registerState == old(registerState) && states == old(states)
      ensures isPasswordVisible == old(isPasswordVisible) && isConfirmPasswordVisible == old(isConfirmPasswordVisible)
    {
      confirmPassword := newConfirmPassword;
      ValidateConfirmPasswordField();
    }

    /** `togglePasswordVisibility`: negate that flag only. */
    method TogglePasswordVisibility()
      requires Valid()
      modifies this
      ensures Valid()
      ensures isPasswordVisible == !old(isPasswordVisible)
      ensures isConfirmPasswordVisible == old(isConfirmPasswordVisible)
      ensures email == old(email) && password == old(password) && confirmPassword == old(confirmPassword)
      ensures fieldErrors == old(fieldErrors) && registerState == old(registerState) && states == old(states)
      ensures passwordStrength == old(passwordStrength) && passwordRequirements == old(passwordRequirements)
    {
      isPasswordVisible := !isPasswordVisible;
    }

    /** `toggleConfirmPasswordVisibility`: negate that flag only. */
    method ToggleConfirmPasswordVisibility()
      requires Valid()
      modifies this
      ensures Valid()
      ensures isConfirmPasswordVisible == !old(isConfirmPasswordVisible)
      ensures isPasswordVisible == old(isPasswordVisible)
      ensures email == old(email) && password == old(password) && confirmPassword == old(confirmPassword)
      ensures fieldErrors == old(fieldErrors) && registerState == old(registerState) && states == old(states)
      ensures passwordStrength == old(passwordStrength) && passwordRequirements == old(passwordRequirements)
    {
      isConfirmPasswordVisible := !isConfirmPasswordVisible;
    }

    /**
     * `register`: nothing happens unless the form is valid; a validation
     * error becomes the state; otherwise the state becomes Loading, then
     * the repository's answer.
     */
    method Register(now: int, store: StoreCall)
      requires Valid()
      modifies this, repo.dao
      ensures Valid()
      ensures email == old(email) && password == old(password) && confirmPassword == old(confirmPassword)
      ensures fieldErrors == old(fieldErrors) && passwordRequirements == old(passwordRequirements)
      ensures passwordStrength == old(passwordStrength)
      ensures isPasswordVisible == old(isPasswordVisible) && isConfirmPasswordVisible == old(isConfirmPasswordVisible)
      ensures !old(IsFormValid()) ==>
        registerState == old(registerState) && states == old(states) &&
        repo.dao.rows == old(repo.dao.rows) && repo.dao.lastId == old(repo.dao.lastId)
      ensures old(IsFormValid()) && ValidateRegistration(email, password, confirmPassword).Invalid? ==>
        && registerState == Error(ValidateRegistration(email, password, confirmPassword).appError)
        && states == old(states) + [registerState]
        && repo.dao.rows == old(repo.dao.rows) && repo.dao.lastId == old(repo.dao.lastId)
      ensures old(IsFormValid()) && ValidateRegistration(email, password, confirmPassword).Valid? ==>
        var request := RegisterRequest(email, password, confirmPassword);
        && registerState == RegisterOutcome(old(repo.dao.rows), old(repo.dao.lastId), request, now, store)
        && states == old(states) + [Loading, registerState]
        && repo.dao.rows == RegisterTable(old(repo.dao.rows), old(repo.dao.lastId), request, now, store)
    {
      if !IsFormValid() {
        return;
      }
      var validationResult := ValidateRegistration(email, password, confirmPassword);
      if validationResult.Invalid? {
        registerState := Error(validationResult.appError);
        states := states + [registerState];
        return;
      }
      Submit(now, store);
    }

    /** The second half of `register`: Loading, then the repository's answer for the form's request. */
    method Submit(now: int, store: StoreCall)
      requires Valid()
      modifies this, repo.dao
      ensures Valid()
      ensures email == old(email) && password == old(password) && confirmPassword == old(confirmPassword)
      ensures fieldErrors == old(fieldErrors) && passwordRequirements == old(passwordRequirements)
      ensures passwordStrength == old(passwordStrength)
      ensures isPasswordVisible == old(isPasswordVisible) && isConfirmPasswordVisible == old(isConfirmPasswordVisible)
      ensures var request := RegisterRequest(email, password, confirmPassword);
        && registerState == RegisterOutcome(old(repo.dao.rows), old(repo.dao.lastId), request, now, store)
        && states == old(states) + [Loading, registerState]
        && repo.dao.rows == RegisterTable(old(repo.dao.rows), old(repo.dao.lastId), request, now, store)
    {
      registerState := Loading;
      states := states + [registerState];
      var request := RegisterRequest(email, password, confirmPassword);
      registerState := repo.Register(request, now, store);
      states := states + [registerState];
    }

    /** `clearError`: an Error state becomes Idle, and every field error goes. */
    method ClearError()
      requires Valid()
      modifies this
      ensures Valid()
      ensures registerState == if old(registerState).Error? then Idle else old(registerState)
      ensures states == if old(registerState).Error? then old(states) + [Idle] else old(states)
      ensures fieldErrors == map[]
      ensures email == old(email) && password == old(password) && confirmPassword == old(confirmPassword)
      ensures passwordStrength == old(passwordStrength) && passwordRequirements == old(passwordRequirements)
      ensures isPasswordVisible == old(isPasswordVisible) && isConfirmPasswordVisible == old(isConfirmPasswordVisible)
    {
      if registerState.Error? {
        registerState := Idle;
        states := states + [registerState];
      }
      fieldErrors := map[];
    }

    /**
     * `resetForm`: empty the three fields and the errors, strength WEAK, state
     * Idle. The requirements map and the visibility flags are left as they are.
     */
    method ResetForm()
      requires Valid()
      modifies this
      ensures Valid()
      ensures email == "" && password == "" && confirmPassword == ""
      ensures passwordStrength == WEAK && fieldErrors == map[]
      ensures registerState == Idle && states == old(states) + [Idle]
      ensures passwordRequirements == old(passwordRequirements)
      ensures isPasswordVisible == old(isPasswordVisible) && isConfirmPasswordVisible == old(isConfirmPasswordVisible)
    {
      email := "";
      password := "";
      confirmPassword := "";
      passwordStrength := WEAK;
      fieldErrors := map[];
      registerState := Idle;
      states := states + [registerState];
      EmptyPasswordIsWeak();
    }

    /** `getErrorDetails`: the code and user message of an Error state, else null. */
    function GetErrorDetails(): (details: Option<(string, string)>)
      reads this
      ensures details.Some? <==> registerState.Error?
      ensures details.Some? ==> details.value == (registerState.error.Code(), registerState.error.UserMessage())
    {
      if registerState.Error? then Some((registerState.error.Code(), registerState.error.UserMessage())) else None
    }
  }

  /** The initial form, and any form after `clearError` or `resetForm`, has no stale error. */
  lemma NoErrorsCurrent(email: string, password: string, confirmPassword: string)
    ensures ErrorsCurrent(map[], email, password, confirmPassword)
  {
  }

  /** `onEmailChanged` keeps every field error current. */
  lemma EmailChangeKeepsErrorsCurrent(errors: map<string, string>, email: string, password: string,
                                      confirmPassword: string, newEmail: string)
    requires ErrorsCurrent(errors, email, password, confirmPassword)
    ensures ErrorsCurrent(UpdatedErrors(errors, EmailField, ValidateEmail(newEmail)), newEmail, password, confirmPassword)
  {
    UpdatedErrorsReports(errors, EmailField, ValidateEmail(newEmail));
  }

  /**
   * `onPasswordChanged` keeps every field error current: it revalidates the
   * confirmation too, because that check depends on the password.
   */
  lemma PasswordChangeKeepsErrorsCurrent(errors: map<string, string>, email: string, password: string,
                                         confirmPassword: string, newPassword: string)
    requires ErrorsCurrent(errors, email, password, confirmPassword)
    ensures ErrorsCurrent(UpdatedErrors(UpdatedErrors(errors, PasswordField, ValidatePassword(newPassword)),
                                        ConfirmField, ValidateConfirmPassword(newPassword, confirmPassword)),
                          email, newPassword, confirmPassword)
  {
    var e1 := UpdatedErrors(errors, PasswordField, ValidatePassword(newPassword));
    UpdatedErrorsReports(errors, PasswordField, ValidatePassword(newPassword));
    UpdatedErrorsReports(e1, ConfirmField, ValidateConfirmPassword(newPassword, confirmPassword));
  }

  /** `onConfirmPasswordChanged` keeps every field error current. */
  lemma ConfirmChangeKeepsErrorsCurrent(errors: map<string, string>, email: string, password: string,
                                        confirmPassword: string, newConfirmPassword: string)
    requires ErrorsCurrent(errors, email, password, confirmPassword)
    ensures ErrorsCurrent(UpdatedErrors(errors, ConfirmField, ValidateConfirmPassword(password, newConfirmPassword)),
                          email, password, newConfirmPassword)
  {
    UpdatedErrorsReports(errors, ConfirmField, ValidateConfirmPassword(password, newConfirmPassword));
  }

  /**
   * Updating only the password would leave a stale confirmation error
   * behind: "Passwords do not match" stays although the passwords now agree.
   */
  lemma PasswordAloneLeavesStaleError()
    ensures var errors := map[ConfirmField := "Passwords do not match"];
            ErrorsCurrent(errors, "", "x", "y") &&
            !ErrorsCurrent(UpdatedErrors(errors, PasswordField, ValidatePassword("y")), "", "y", "y")
  {
    assert !IsWhitespace("y"[0]) && !IsWhitespace("x"[0]);
  }

  /** The empty password scores nothing and is WEAK, as the initial form says. */
  lemma EmptyPasswordIsWeak()
    ensures StrengthScore("") == 0 && CheckPasswordStrength("") == WEAK
  {
    assert !HasDigit("") && !HasUpper("") && !HasLower("") && !HasSpecial("");
  }

  /**
   * A form that `isFormValid` accepts holds a password meeting all five
   * criteria, so `validatePassword` accepts it, at STRONG strength; only the
   * email and the confirmation can still fail `validateRegistration`.
   */
  lemma FormValidPassword(vm: RegisterViewModel)
    requires vm.Valid() && vm.IsFormValid()
    ensures |vm.password| >= 8 && HasDigit(vm.password) && HasUpper(vm.password)
    ensures HasLower(vm.password) && HasSpecial(vm.password)
    ensures ValidatePassword(vm.password).Valid?
    ensures vm.passwordStrength == STRONG
    ensures ValidateRegistration(vm.email, vm.password, vm.confirmPassword).Invalid? ==>
      ValidateRegistration(vm.email, vm.password, vm.confirmPassword).appError in {EmptyFields, InvalidEmailFormat, PasswordMismatch}
  {
    assert vm.password != "" by {
      assert !IsBlank(vm.password);
    }
    AllRequirementsMet(vm.password);
    RequirementsCount(vm.password);
  }

  /**
   * `getErrorDetails` is null outside an Error state, and the code it reports
   * for a named error gives that error back through `fromCode`.
   */
  lemma ErrorDetailsIdentifyNamed(vm: RegisterViewModel)
    ensures vm.GetErrorDetails().None? <==> !vm.registerState.Error?
    ensures vm.registerState.Error? && vm.registerState.error.IsNamed() ==>
      FromCode(vm.GetErrorDetails().value.0) == vm.registerState.error
  {
    if vm.registerState.Error? && vm.registerState.error.IsNamed() {
      FromCodeRoundTrip(vm.registerState.error);
    }
  }
}
