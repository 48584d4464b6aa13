/** The cross-field check of the admin's user-creation form: the password
    and its confirmation must agree, and the password must be at least
    eight characters long. Field-level cleaning (required fields, e-mail
    format) has already run; its result is the `cleaned data` handed in. */
module Forms {
  import opened Wrappers

  /** The form's cleaned data: field name to cleaned value. Every field of
      this form cleans to text. */
  type CleanedData = map<string, string>

  /** The shortest password the form accepts. */
  const MinPasswordLength: nat := 8

  /** The help text shown under the password field. */
  const PasswordHelpText := "Password must be at least 8 characters long"

  /** Messages of the two validation errors the check raises. */
  const MismatchMessage := "Passwords do not match!"
  const TooShortMessage := "Password must be at least 8 characters long!"

  /** `cleaned_data.get(field)`: `None` when the field is absent. */
  function Get(cleanedData: CleanedData, field: string): Option<string>
  {
    if field in cleanedData then Some(cleanedData[field]) else None
  }

  /** The message of the error the check raises for this pair of values,
      or `None` when it raises nothing. The pair is only inspected when
      both values are truthy; a mismatch is reported before the length. */
  function PasswordError(password: Option<string>, confirm: Option<string>): (e: Option<string>)
    ensures e.Some? ==> Truthy(password) && Truthy(confirm)
    ensures e.Some? ==> e.value == MismatchMessage || e.value == TooShortMessage
  {
    if Truthy(password) && Truthy(confirm) then
      if password.value != confirm.value then Some(MismatchMessage)
      else if |password.value| < MinPasswordLength then Some(TooShortMessage)
      else None
    else None
  }

  /** `AdminUserCreationForm.clean`: hands the cleaned data back untouched,
      or raises the error `PasswordError` names for its two password
      fields. */
  function Clean(cleanedData: CleanedData): (r: Result<CleanedData>)
    ensures r.Ok? ==> r.value == cleanedData
    ensures r.Ok? <==> PasswordError(Get(cleanedData, "password"), Get(cleanedData, "confirm_password")) == None
    ensures r.Err? ==> PasswordError(Get(cleanedData, "password"), Get(cleanedData, "confirm_password")) == Some(r.message)
  {
    match PasswordError(Get(cleanedData, "password"), Get(cleanedData, "confirm_password"))
    case None => Ok(cleanedData)
    case Some(message) => Err(message)
  }

  /** Two present passwords that differ are rejected as a mismatch,
      whatever their lengths. */
  lemma MismatchRejected(password: string, confirm: string)
    requires password != "" && confirm != ""
    requires password != confirm
    ensures PasswordError(Some(password), Some(confirm)) == Some(MismatchMessage)
  {
  }

  /** A present password confirmed exactly but shorter than the minimum is
      rejected as too short. */
  lemma ShortPasswordRejected(password: string)
    requires password != ""
    requires |password| < MinPasswordLength
    ensures PasswordError(Some(password), Some(password)) == Some(TooShortMessage)
  {
  }

  /** The length error is raised exactly for a matching pair of present
      passwords under the minimum: a mismatch always takes precedence. */
  lemma TooShortOnlyForMatchingPair(password: Option<string>, confirm: Option<string>)
    ensures PasswordError(password, confirm) == Some(TooShortMessage)
        <==> Truthy(password) && password == confirm && |password.value| < MinPasswordLength
  {
  }

  /** When either value is missing or empty, the check raises nothing. */
  lemma MissingValueNeverRejected(password: Option<string>, confirm: Option<string>)
    requires !Truthy(password) || !Truthy(confirm)
    ensures PasswordError(password, confirm) == None
  {
  }

  /** A password of at least the minimum length, confirmed exactly, is
      accepted. */
  lemma LongMatchingPasswordAccepted(password: string)
    requires |password| >= MinPasswordLength
    ensures PasswordError(Some(password), Some(password)) == None
  {
  }

  /** The check passes exactly when one value is missing or empty, or the
      two agree and are long enough. */
  lemma AcceptedIff(password: Option<string>, confirm: Option<string>)
    ensures PasswordError(password, confirm) == None
        <==> !Truthy(password) || !Truthy(confirm)
             || (password == confirm && |password.value| >= MinPasswordLength)
  {
  }

  /** Swapping the password and its confirmation never changes the
      verdict: the length is only checked once the two are equal. */
  lemma PasswordErrorSymmetric(password: Option<string>, confirm: Option<string>)
    ensures PasswordError(password, confirm) == PasswordError(confirm, password)
  {
  }

  /** The number a string of decimal digits denotes, most significant
      digit first; the empty string denotes 0. */
  function DigitsValue(s: string): nat
  {
    if s == [] then 0
    else
      var d := s[|s| - 1] as int - '0' as int;
      10 * DigitsValue(s[..|s| - 1]) + (if 0 <= d then d else 0)
  }

  /** The decimal numeral of `n`, most significant digit first: digits
      only, no leading zero, and denoting `n`. */
  function Decimal(n: nat): (r: string)
    ensures r != []
    ensures forall i :: 0 <= i < |r| ==> '0' <= r[i] <= '9'
    ensures r[0] == '0' ==> n == 0
    ensures DigitsValue(r) == n
  {
    var digit := (n % 10 + '0' as int) as char;
    if n < 10 then [digit]
    else
      var prefix := Decimal(n / 10);
      assert (prefix + [digit])[..|prefix|] == prefix;
      prefix + [digit]
  }

  /** The minimum the check enforces is the one the field's help text
      announces: the numeral between the help text's fixed words is the
      canonical numeral of the minimum and denotes it. The error message is
      that help text. */
  lemma HelpTextStatesMinimum()
    ensures PasswordHelpText == "Password must be at least " + Decimal(MinPasswordLength) + " characters long"
    ensures DigitsValue(PasswordHelpText[26..|PasswordHelpText| - 16]) == MinPasswordLength
    ensures TooShortMessage == PasswordHelpText + "!"
  {
    assert PasswordHelpText[26..|PasswordHelpText| - 16] == Decimal(MinPasswordLength);
  }
}
