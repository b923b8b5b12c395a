/**
 * Utils/ValidationUtils.kt: field validation for the login and registration
 * forms, and the five-point password strength score.
 */
module Validation {
  import opened Wrappers
  import opened Text
  import opened AppErrors

  /** `ValidationResult`: Valid, or an error with the message shown under the field. */
  datatype ValidationResult = Valid | Invalid(appError: AppError, fieldMessage: string)

  datatype PasswordStrength = WEAK | MEDIUM | STRONG

  // ---------------------------------------------------------------------------
  // Android's Patterns.EMAIL_ADDRESS, matched against the whole string:
  //   [a-zA-Z0-9+._%-]{1,256} @ [a-zA-Z0-9][a-zA-Z0-9-]{0,64} ( . [a-zA-Z0-9][a-zA-Z0-9-]{0,25} )+
  // No class of the pattern contains '@' and no label class contains '.', so
  // each part is the longest run of its characters and no backtracking is needed.

  predicate IsLocalChar(c: char) {
    IsLetterOrDigit(c) || c == '+' || c == '.' || c == '_' || c == '%' || c == '-'
  }

  predicate IsLabelChar(c: char) {
    IsLetterOrDigit(c) || c == '-'
  }

  /** Length of the longest prefix of local-part characters. */
  function LocalRun(s: string): (n: nat)
    ensures n <= |s|
    ensures forall i :: 0 <= i < n ==> IsLocalChar(s[i])
    ensures n < |s| ==> !IsLocalChar(s[n])
  {
    if s == [] || !IsLocalChar(s[0]) then 0 else 1 + LocalRun(s[1..])
  }

  /** Length of the longest prefix of domain-label characters. */
  function LabelRun(s: string): (n: nat)
    ensures n <= |s|
    ensures forall i :: 0 <= i < n ==> IsLabelChar(s[i])
    ensures n < |s| ==> !IsLabelChar(s[n])
  {
    if s == [] || !IsLabelChar(s[0]) then 0 else 1 + LabelRun(s[1..])
  }

  /** One or more groups `.label`, each label 1 to 26 characters starting with a letter or digit. */
  predicate DotLabels(t: string)
    decreases |t|
  {
    |t| >= 2 && t[0] == '.' && IsLetterOrDigit(t[1]) &&
    var n := LabelRun(t[1..]);
    n <= 26 && (1 + n == |t| || DotLabels(t[1 + n..]))
  }

  /** `Patterns.EMAIL_ADDRESS.matcher(email).matches()` (`isValidEmail`). */
  predicate IsValidEmail(email: string) {
    var n := LocalRun(email);
    1 <= n <= 256 && n < |email| && email[n] == '@' &&
    var domain := email[n + 1..];
    domain != [] && IsLetterOrDigit(domain[0]) &&
    var m := LabelRun(domain);
    m <= 65 && DotLabels(domain[m..])
  }

  /** An address the pattern accepts is never blank. */
  lemma ValidEmailNotBlank(email: string)
    requires IsValidEmail(email)
    ensures !IsBlank(email)
  {
    assert IsLocalChar(email[0]);
  }

  /** A plain address is accepted. */
  lemma SampleEmailAccepted()
    ensures IsValidEmail("a@b.com")
  {
    var e := "a@b.com";
    assert e[1..] == "@b.com" && LocalRun(e[1..]) == 0;
    var d := e[2..];
    assert d == "b.com" && d[1..] == ".com" && LabelRun(d[1..]) == 0;
    assert LabelRun(d) == 1;
    var t := d[1..];
    var c := t[1..];
    assert c == "com" && c[1..] == "om" && c[1..][1..] == "m" && c[1..][1..][1..] == [];
    assert LabelRun(c) == 3;
    assert DotLabels(t);
  }

  // ---------------------------------------------------------------------------
  // Field validators

  /** `validateEmail`: blank, then format, then valid. */
  function ValidateEmail(email: string): (r: ValidationResult)
    ensures r.Valid? <==> IsValidEmail(email)
    ensures r.Invalid? ==> r.appError == (if IsBlank(email) then EmptyFields else InvalidEmailFormat)
  {
    if IsBlank(email) then
      Invalid(EmptyFields, "Email cannot be empty")
    else if !IsValidEmail(email) then
      Invalid(InvalidEmailFormat, "Invalid email format")
    else
      Valid
  }

  /** The error `validatePassword` reports for a short password. */
  function TooShortError(password: string): AppError {
    CustomError("VAL_004", "Password must be at least 8 characters",
                Some("Password too short: " + NatToString(|password|) + " characters"))
  }

  /** The error of the "too weak" branch, which no input reaches. */
  const TooWeakError: AppError :=
    CustomError("VAL_009",
                "Password is too weak. Include numbers and special characters for better security",
                Some("Password strength: WEAK"))

  /**
   * `validatePassword`: blank, shorter than 8, no uppercase, no lowercase,
   * WEAK strength, each checked in that order. The WEAK check never fires,
   * so a password is valid exactly when it passes the first four.
   */
  function ValidatePassword(password: string): (r: ValidationResult)
    ensures r.Valid? <==> |password| >= 8 && HasUpper(password) && HasLower(password)
    ensures r != Invalid(TooWeakError, "Password is too weak")
    ensures r.Valid? ==> CheckPasswordStrength(password) != WEAK
    ensures IsBlank(password) ==> r == Invalid(EmptyFields, "Password cannot be empty")
    ensures !IsBlank(password) && |password| < 8 ==>
      r == Invalid(TooShortError(password), "Password must be at least 8 characters")
    ensures !IsBlank(password) && |password| >= 8 && !HasUpper(password) ==>
      r == Invalid(CustomError("VAL_010", "Password must contain at least one uppercase letter",
                               Some("Password missing uppercase letter")),
                   "Must contain at least one uppercase letter")
    ensures !IsBlank(password) && |password| >= 8 && HasUpper(password) && !HasLower(password) ==>
      r == Invalid(CustomError("VAL_011", "Password must contain at least one lowercase letter",
                               Some("Password missing lowercase letter")),
                   "Must contain at least one lowercase letter")
  {
    if IsBlank(password) then
      Invalid(EmptyFields, "Password cannot be empty")
    else if |password| < 8 then
      Invalid(TooShortError(password), "Password must be at least 8 characters")
    else if !HasUpper(password) then
      Invalid(CustomError("VAL_010", "Password must contain at least one uppercase letter",
                          Some("Password missing uppercase letter")),
              "Must contain at least one uppercase letter")
    else if !HasLower(password) then
      Invalid(CustomError("VAL_011", "Password must contain at least one lowercase letter",
                          Some("Password missing lowercase letter")),
              "Must contain at least one lowercase letter")
    else if (StrongEnoughAfterBasicChecks(password); CheckPasswordStrength(password) == WEAK) then
      Invalid(TooWeakError, "Password is too weak")
    else
      Valid
  }

  /**
   * Why the VAL_009 branch is dead: length, an uppercase and a lowercase letter
   * already score 3, and WEAK means a score below 2.
   */
  lemma StrongEnoughAfterBasicChecks(password: string)
    requires |password| >= 8 && HasUpper(password) && HasLower(password)
    ensures StrengthScore(password) >= 3
    ensures CheckPasswordStrength(password) in {MEDIUM, STRONG}
  {
  }

  /** `validateConfirmPassword`: blank, then equality with the password. */
  function ValidateConfirmPassword(password: string, confirmPassword: string): (r: ValidationResult)
    ensures r.Valid? <==> !IsBlank(confirmPassword) && password == confirmPassword
    ensures r.Invalid? ==> r.appError == (if IsBlank(confirmPassword) then EmptyFields else PasswordMismatch)
  {
    if IsBlank(confirmPassword) then
      Invalid(EmptyFields, "Confirm password cannot be empty")
    else if password != confirmPassword then
      Invalid(PasswordMismatch, "Passwords do not match")
    else
      Valid
  }

  /** `validateRegistration`: the first error of email, password, confirmation. */
  function ValidateRegistration(email: string, password: string, confirmPassword: string): (r: ValidationResult)
    ensures r.Valid? <==>
      ValidateEmail(email).Valid? && ValidatePassword(password).Valid? &&
      ValidateConfirmPassword(password, confirmPassword).Valid?
    ensures ValidateEmail(email).Invalid? ==> r == ValidateEmail(email)
    ensures ValidateEmail(email).Valid? && ValidatePassword(password).Invalid? ==> r == ValidatePassword(password)
    ensures ValidateEmail(email).Valid? && ValidatePassword(password).Valid? ==>
      r == ValidateConfirmPassword(password, confirmPassword)
  {
    var emailResult := ValidateEmail(email);
    if emailResult.Invalid? then emailResult
    else
      var passwordResult := ValidatePassword(password);
      if passwordResult.Invalid? then passwordResult
      else
        var confirmResult := ValidateConfirmPassword(password, confirmPassword);
        if confirmResult.Invalid? then confirmResult
        else Valid
  }

  /** A registration that validates carries a well-formed address and an equal, non-weak password pair. */
  lemma ValidRegistrationMeaning(email: string, password: string, confirmPassword: string)
    requires ValidateRegistration(email, password, confirmPassword).Valid?
    ensures IsValidEmail(email) && password == confirmPassword
    ensures |password| >= 8 && HasUpper(password) && HasLower(password)
    ensures CheckPasswordStrength(password) != WEAK
  {
  }

  // ---------------------------------------------------------------------------
  // Password strength

  /** `calculatePasswordStrengthScore`: one point per satisfied criterion. */
  function StrengthScore(password: string): (score: nat)
    ensures score <= 5
  {
    (if |password| >= 8 then 1 else 0) +
    (if HasDigit(password) then 1 else 0) +
    (if HasUpper(password) then 1 else 0) +
    (if HasLower(password) then 1 else 0) +
    (if HasSpecial(password) then 1 else 0)
  }

  /** The score counts the met entries of the requirements map. */
  lemma StrengthScoreCountsRequirements(password: string)
    ensures StrengthScore(password) == TrueCount(GetPasswordRequirements(password))
  {
    RequirementsCount(password);
  }

  /** `checkPasswordStrength`: WEAK below 2, MEDIUM below 4, STRONG otherwise. */
  function CheckPasswordStrength(password: string): PasswordStrength {
    var score := StrengthScore(password);
    if score < 2 then WEAK else if score < 4 then MEDIUM else STRONG
  }

  /** The strength of a password meeting every requirement, and of the empty one. */
  lemma StrengthExtremes(password: string)
    ensures (forall k :: k in GetPasswordRequirements(password) ==> GetPasswordRequirements(password)[k])
            ==> CheckPasswordStrength(password) == STRONG
    ensures CheckPasswordStrength("") == WEAK
  {
    if forall k :: k in GetPasswordRequirements(password) ==> GetPasswordRequirements(password)[k] {
      RequirementsCount(password);
      assert StrengthScore(password) == 5;
    }
    assert !HasUpper("") && !HasLower("") && !HasDigit("") && !HasSpecial("");
  }

  const LengthLabel := "At least 8 characters"
  const DigitLabel := "Contains a number"
  const UpperLabel := "Contains uppercase letter"
  const LowerLabel := "Contains lowercase letter"
  const SpecialLabel := "Contains special character"
  const RequirementLabels: set<string> := {LengthLabel, DigitLabel, UpperLabel, LowerLabel, SpecialLabel}

  /** `getPasswordRequirements`: each criterion's label and whether it is met. */
  function GetPasswordRequirements(password: string): map<string, bool> {
    Requirements(|password| >= 8, HasDigit(password), HasUpper(password), HasLower(password), HasSpecial(password))
  }

  function Requirements(long: bool, digit: bool, upper: bool, lower: bool, special: bool): map<string, bool> {
    map[LengthLabel := long, DigitLabel := digit, UpperLabel := upper, LowerLabel := lower, SpecialLabel := special]
  }

  /** Number of entries of a requirements map that are met. */
  function TrueCount(m: map<string, bool>): nat {
    |set k | k in m && m[k]|
  }

  /** The five labels are pairwise different strings. */
  lemma LabelsDistinct()
    ensures LengthLabel != DigitLabel && LengthLabel != UpperLabel && LengthLabel != LowerLabel
    ensures LengthLabel != SpecialLabel && DigitLabel != UpperLabel && DigitLabel != LowerLabel
    ensures DigitLabel != SpecialLabel && UpperLabel != LowerLabel && UpperLabel != SpecialLabel
    ensures LowerLabel != SpecialLabel
  {
    assert |LengthLabel| == 21 && |DigitLabel| == 17 && |UpperLabel| == 25;
    assert |LowerLabel| == 25 && |SpecialLabel| == 26;
    assert UpperLabel[9] == 'u' && LowerLabel[9] == 'l';
  }

  /** Adding a fresh entry adds one met entry exactly when its value is true. */
  lemma TrueCountAdd(m: map<string, bool>, k: string, v: bool)
    requires k !in m
    ensures TrueCount(m[k := v]) == TrueCount(m) + (if v then 1 else 0)
    ensures |m[k := v]| == |m| + 1
  {
    var m' := m[k := v];
    var before := set j | j in m && m[j];
    var after := set j | j in m' && m'[j];
    if v {
      assert after == before + {k};
    } else {
      assert after == before;
    }
  }

  /** The five-entry map has as many met entries as criteria set to true. */
  lemma RequirementsMapCount(long: bool, digit: bool, upper: bool, lower: bool, special: bool)
    ensures Requirements(long, digit, upper, lower, special).Keys == RequirementLabels
    ensures |Requirements(long, digit, upper, lower, special)| == 5
    ensures TrueCount(Requirements(long, digit, upper, lower, special)) ==
      (if long then 1 else 0) + (if digit then 1 else 0) + (if upper then 1 else 0) +
      (if lower then 1 else 0) + (if special then 1 else 0)
  {
    LabelsDistinct();
    var m0: map<string, bool> := map[];
    assert TrueCount(m0) == 0;
    TrueCountAdd(m0, LengthLabel, long);
    var m1 := m0[LengthLabel := long];
    TrueCountAdd(m1, DigitLabel, digit);
    var m2 := m1[DigitLabel := digit];
    TrueCountAdd(m2, UpperLabel, upper);
    var m3 := m2[UpperLabel := upper];
    TrueCountAdd(m3, LowerLabel, lower);
    var m4 := m3[LowerLabel := lower];
    TrueCountAdd(m4, SpecialLabel, special);
    assert m4[SpecialLabel := special] == Requirements(long, digit, upper, lower, special);
  }

  /** The requirements map has the five labels, and as many met entries as the score's criteria. */
  lemma RequirementsCount(password: string)
    ensures GetPasswordRequirements(password).Keys == RequirementLabels
    ensures |GetPasswordRequirements(password)| == 5
    ensures TrueCount(GetPasswordRequirements(password)) ==
      (if |password| >= 8 then 1 else 0) + (if HasDigit(password) then 1 else 0) +
      (if HasUpper(password) then 1 else 0) + (if HasLower(password) then 1 else 0) +
      (if HasSpecial(password) then 1 else 0)
  {
    RequirementsMapCount(|password| >= 8, HasDigit(password), HasUpper(password), HasLower(password), HasSpecial(password));
  }

  /** Each label of the requirements map holds its own criterion. */
  lemma RequirementsLookup(long: bool, digit: bool, upper: bool, lower: bool, special: bool)
    ensures var m := Requirements(long, digit, upper, lower, special);
            && m[LengthLabel] == long && m[DigitLabel] == digit && m[UpperLabel] == upper
            && m[LowerLabel] == lower && m[SpecialLabel] == special
  {
    LabelsDistinct();
  }

  /** `areAllPasswordRequirementsMet` of a password's map: all five criteria hold. */
  lemma AllRequirementsMet(password: string)
    ensures var m := GetPasswordRequirements(password);
            (forall k :: k in m ==> m[k]) <==>
              |password| >= 8 && HasDigit(password) && HasUpper(password) && HasLower(password) && HasSpecial(password)
  {
    var m := GetPasswordRequirements(password);
    RequirementsMapCount(|password| >= 8, HasDigit(password), HasUpper(password), HasLower(password), HasSpecial(password));
    RequirementsLookup(|password| >= 8, HasDigit(password), HasUpper(password), HasLower(password), HasSpecial(password));
    assert LengthLabel in m && DigitLabel in m && UpperLabel in m && LowerLabel in m && SpecialLabel in m;
    if |password| >= 8 && HasDigit(password) && HasUpper(password) && HasLower(password) && HasSpecial(password) {
      forall k | k in m ensures m[k] {
        assert k in RequirementLabels;
      }
    }
  }

  /** `PasswordStrength.getDescription`. */
  function GetDescription(strength: PasswordStrength): (d: string)
    ensures d == "Weak password" <==> strength == WEAK
    ensures d == "Medium strength" <==> strength == MEDIUM
    ensures d == "Strong password" <==> strength == STRONG
  {
    match strength
    case WEAK => "Weak password"
    case MEDIUM => "Medium strength"
    case STRONG => "Strong password"
  }

  // ---------------------------------------------------------------------------
  // Login validation

  /** `validateLoginPassword`: only a blank password is rejected. */
  function ValidateLoginPassword(password: string): (r: ValidationResult)
    ensures r.Valid? <==> !IsBlank(password)
  {
    if IsBlank(password) then Invalid(EmptyFields, "Password cannot be empty") else Valid
  }

  /** `validateLogin`: the email first, then a non-blank password. */
  function ValidateLogin(email: string, password: string): (r: ValidationResult)
    ensures r.Valid? <==> IsValidEmail(email) && !IsBlank(password)
    ensures ValidateEmail(email).Invalid? ==> r == ValidateEmail(email)
    ensures r.Invalid? ==> r.appError in {EmptyFields, InvalidEmailFormat}
  {
    var emailResult := ValidateEmail(email);
    if emailResult.Invalid? then emailResult
    else
      var passwordResult := ValidateLoginPassword(password);
      if passwordResult.Invalid? then passwordResult
      else Valid
  }

  /** Every registration that validates would also pass login validation. */
  lemma RegistrationStricterThanLogin(email: string, password: string, confirmPassword: string)
    requires ValidateRegistration(email, password, confirmPassword).Valid?
    ensures ValidateLogin(email, password).Valid?
  {
    assert HasUpper(password);
    var i :| 0 <= i < |password| && IsUpper(password[i]);
    LetterIsNotBlank(password, i);
  }
}
