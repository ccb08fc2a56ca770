// The password validators (validators.py): the complexity rules, checked in a fixed
// order with the first failing rule deciding the error, and the history validator,
// which accepts every password.
module Validators {
  import opened Wrappers
  import opened Text

  /** A `ValidationError`: its code, its message template and the `min_length` parameter
      when the message has one. */
  datatype ValidationError = ValidationError(code: string, message: string, minLength: Option<int>)

  const DefaultMinLength := 8
  const DefaultHistoryCount := 5

  /** The characters of the `[!@#$%^&*(),.?":{}|<>]` class. */
  const SpecialChars: string := "!@#$%^&*(),.?\":{}|<>"

  predicate HasUpper(s: string) { exists i :: 0 <= i < |s| && IsUpper(s[i]) }
  predicate HasLower(s: string) { exists i :: 0 <= i < |s| && IsLower(s[i]) }
  predicate HasDigit(s: string) { exists i :: 0 <= i < |s| && IsDigit(s[i]) }
  predicate HasSpecial(s: string) { exists i :: 0 <= i < |s| && s[i] in SpecialChars }

  const TooShort := ValidationError("password_too_short", "This password must contain at least %(min_length)d characters.", None)
  const NoUpper := ValidationError("password_no_upper", "This password must contain at least one uppercase letter.", None)
  const NoLower := ValidationError("password_no_lower", "This password must contain at least one lowercase letter.", None)
  const NoDigit := ValidationError("password_no_digit", "This password must contain at least one digit.", None)
  const NoSpecial := ValidationError("password_no_special",
    "This password must contain at least one special character (!@#$%^&*(),.?\":{}|<>).", None)

  /** `PasswordComplexityValidator.validate`: the error raised, or `None` when the password
      passes. */
  function ValidateComplexity(password: string, minLength: int): (r: Option<ValidationError>)
    ensures |password| < minLength ==> r == Some(TooShort.(minLength := Some(minLength)))
    ensures |password| >= minLength && !HasUpper(password) ==> r == Some(NoUpper)
    ensures |password| >= minLength && HasUpper(password) && !HasLower(password) ==> r == Some(NoLower)
    ensures |password| >= minLength && HasUpper(password) && HasLower(password) && !HasDigit(password)
            ==> r == Some(NoDigit)
    ensures (|password| >= minLength && HasUpper(password) && HasLower(password) && HasDigit(password)
             && !HasSpecial(password)) ==> r == Some(NoSpecial)
  {
    if |password| < minLength then Some(TooShort.(minLength := Some(minLength)))
    else if !HasUpper(password) then Some(NoUpper)
    else if !HasLower(password) then Some(NoLower)
    else if !HasDigit(password) then Some(NoDigit)
    else if !HasSpecial(password) then Some(NoSpecial)
    else None
  }

  /** A password is accepted exactly when it is long enough and has a character of every
      class. */
  lemma AcceptedIffComplex(password: string, minLength: int)
    ensures ValidateComplexity(password, minLength).None?
            <==> |password| >= minLength && HasUpper(password) && HasLower(password)
                 && HasDigit(password) && HasSpecial(password)
  {
  }

  /** The error codes, in the order the rules are checked. */
  const RuleCodes: seq<string> :=
    ["password_too_short", "password_no_upper", "password_no_lower", "password_no_digit", "password_no_special"]

  /** Whether rule `k` (in the order of `RuleCodes`) holds for the password. */
  predicate RuleHolds(k: nat, password: string, minLength: int)
    requires k < 5
  {
    if k == 0 then |password| >= minLength
    else if k == 1 then HasUpper(password)
    else if k == 2 then HasLower(password)
    else if k == 3 then HasDigit(password)
    else HasSpecial(password)
  }

  /** A rejected password carries the code of the first rule it breaks. */
  lemma FirstFailingRuleDecides(password: string, minLength: int)
    ensures var r := ValidateComplexity(password, minLength);
            r.Some? ==> exists k :: 0 <= k < 5 && r.value.code == RuleCodes[k] && !RuleHolds(k, password, minLength)
                                    && forall j :: 0 <= j < k ==> RuleHolds(j, password, minLength)
  {
    var r := ValidateComplexity(password, minLength);
    if r.Some? {
      var k := if |password| < minLength then 0 else if !HasUpper(password) then 1
               else if !HasLower(password) then 2 else if !HasDigit(password) then 3 else 4;
      assert r.value.code == RuleCodes[k] && !RuleHolds(k, password, minLength);
      assert forall j :: 0 <= j < k ==> RuleHolds(j, password, minLength);
    }
  }

  /** `PasswordComplexityValidator.get_help_text`. */
  function ComplexityHelpText(minLength: int): string
  {
    "Your password must contain at least " + IntToString(minLength)
    + " characters, including uppercase, lowercase, digits, and special characters."
  }

  /** The help text states the minimum length. */
  lemma HelpTextStatesLength(minLength: int)
    ensures Contains(ComplexityHelpText(minLength), IntToString(minLength))
  {
    ContainsInfix("Your password must contain at least ", IntToString(minLength),
                  " characters, including uppercase, lowercase, digits, and special characters.");
  }

  /** `PasswordHistoryValidator.validate`: the history check is not implemented, so no
      password is ever refused, with or without a user. */
  function ValidateHistory(password: string, user: Option<nat>, historyCount: int): (r: Option<ValidationError>)
    ensures r.None?
  {
    None
  }

  /** `PasswordHistoryValidator.get_help_text`. */
  function HistoryHelpText(historyCount: int): string
  {
    "Your password cannot be the same as any of your last " + IntToString(historyCount) + " passwords."
  }

  lemma HistoryHelpTextStatesCount(historyCount: int)
    ensures Contains(HistoryHelpText(historyCount), IntToString(historyCount))
  {
    ContainsInfix("Your password cannot be the same as any of your last ", IntToString(historyCount), " passwords.");
  }
}
