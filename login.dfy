/**
 * The sign-in page (login/Login_script.js): the message tables of the two languages, the
 * password-strength meter, the form validators that show or clear one error line per
 * field, the authentication error messages, the default display name of a new user, and
 * the page state (`allowAutoRedirect`, `currentLang`) that the handlers change.
 *
 * The page's DOM is reduced to the text of its error lines: a map from an error element's
 * id to its text, where a missing id means the element has not been created yet.
 * Firebase calls are split into the handler's synchronous part and a separate method for
 * the moment the call settles.
 */
module Login {
  import opened Wrappers
  import opened JsText

  // ---------------------------------------------------------------------------
  // Translations
  // ---------------------------------------------------------------------------

  /** The `validation` messages of one language. */
  datatype Validation = Validation(
    emailEmpty: string,
    passwordEmpty: string,
    nameEmpty: string,
    confirmEmpty: string,
    passwordMismatch: string,
    weak: string,
    medium: string,
    strong: string,
    loginFailed: string)

  const Thai: Validation := Validation(
    "กรุณากรอกอีเมล", "กรุณากรอกรหัสผ่าน", "กรุณากรอกชื่อผู้ใช้", "กรุณายืนยันรหัสผ่าน",
    "รหัสผ่านไม่ตรงกัน", "อ่อน", "ปานกลาง", "แข็งแรง", "อีเมลหรือรหัสผ่านไม่ถูกต้อง")

  const English: Validation := Validation(
    "Email cannot be empty", "Password cannot be empty", "Name cannot be empty",
    "Please confirm your password", "Passwords don't match", "Weak", "Medium", "Strong",
    "Email or password is incorrect.")

  /** `translations[lang].validation`, for the two languages the page ships. */
  const Translations: map<string, Validation> := map["th" := Thai, "en" := English]

  /** Every field error of either language is a visible (non-empty) text. */
  predicate ErrorsVisible(t: Validation) {
    t.emailEmpty != "" && t.passwordEmpty != "" && t.nameEmpty != ""
    && t.confirmEmpty != "" && t.passwordMismatch != ""
  }

  lemma TranslationsVisible(lang: string)
    requires lang in Translations
    ensures ErrorsVisible(Translations[lang])
    ensures Translations[lang].passwordMismatch != Translations[lang].confirmEmpty
  {
  }

  /** `localStorage.getItem('language') || 'th'`: a missing or empty stored value gives Thai. */
  function InitialLanguage(stored: Option<string>): (lang: string)
    ensures lang != ""
    ensures stored.Some? && stored.value != "" ==> lang == stored.value
    ensures stored.None? || stored.value == "" ==> lang == "th"
  {
    if stored.Some? && stored.value != "" then stored.value else "th"
  }

  // ---------------------------------------------------------------------------
  // checkPasswordStrength
  // ---------------------------------------------------------------------------

  predicate IsLower(c: char) { 'a' <= c <= 'z' }
  predicate IsUpper(c: char) { 'A' <= c <= 'Z' }

  /** The characters a regular-expression `.` does not match. */
  predicate IsLineTerminator(c: char) {
    c == '\n' || c == '\r' || c == '\U{2028}' || c == '\U{2029}'
  }

  /** No line terminator strictly between positions `i` and `j`. */
  predicate NoBreakBetween(s: string, i: int, j: int)
    requires 0 <= i <= j <= |s|
  {
    forall k :: i < k < j ==> !IsLineTerminator(s[k])
  }

  predicate CasePair(a: char, b: char) {
    (IsLower(a) && IsUpper(b)) || (IsUpper(a) && IsLower(b))
  }

  /**
   * `/([a-z].*[A-Z])|([A-Z].*[a-z])/` matches: a lower-case letter and an upper-case one,
   * in either order, with no line terminator between them.
   */
  predicate MixedCase(s: string) {
    exists i, j :: 0 <= i < j < |s| && CasePair(s[i], s[j]) && NoBreakBetween(s, i, j)
  }

  predicate HasLower(s: string) { exists i :: 0 <= i < |s| && IsLower(s[i]) }
  predicate HasUpper(s: string) { exists i :: 0 <= i < |s| && IsUpper(s[i]) }

  /** `/([a-zA-Z])/` matches. */
  predicate HasLetter(s: string) { exists i :: 0 <= i < |s| && (IsLower(s[i]) || IsUpper(s[i])) }

  /** `/([0-9])/` matches. */
  predicate HasDigit(s: string) { exists i :: 0 <= i < |s| && IsDigit(s[i]) }

  /** The class `[!,%,&,@,#,$,^,*,?,_,~]`: the listed symbols and the comma that separates them. */
  const Specials: set<char> := {'!', ',', '%', '&', '@', '#', '$', '^', '*', '?', '_', '~'}

  predicate HasSpecial(s: string) { exists i :: 0 <= i < |s| && s[i] in Specials }

  /** The four criteria the meter counts, each worth one point. */
  function Score(s: string): (n: int)
    ensures 0 <= n <= 4
    ensures n == 4 <==> Utf16Length(s) >= 8 && MixedCase(s) && HasLetter(s) && HasDigit(s) && HasSpecial(s)
    ensures n == 0 <==> Utf16Length(s) < 8 && !MixedCase(s) && !(HasLetter(s) && HasDigit(s)) && !HasSpecial(s)
  {
    (if Utf16Length(s) >= 8 then 1 else 0)
    + (if MixedCase(s) then 1 else 0)
    + (if HasLetter(s) && HasDigit(s) then 1 else 0)
    + (if HasSpecial(s) then 1 else 0)
  }

  datatype Strength = Weak | Medium | Strong

  /** The bands of the meter: below two points weak, exactly two medium, more strong. */
  function Band(score: int): (r: Strength)
    ensures r == Weak <==> score < 2
    ensures r == Medium <==> score == 2
    ensures r == Strong <==> score > 2
  {
    if score < 2 then Weak else if score == 2 then Medium else Strong
  }

  /** The text the meter shows for a band. */
  function StrengthText(t: Validation, s: Strength): string {
    match s
    case Weak => t.weak
    case Medium => t.medium
    case Strong => t.strong
  }

  /**
   * `checkPasswordStrength`, with `t` the messages of the current language: an empty
   * password hides the meter (`None`); otherwise the score is counted point by point and
   * its band is shown with the band's text.
   */
  method CheckPasswordStrength(password: string, t: Validation) returns (rating: Option<Strength>, text: Option<string>)
    ensures rating.None? <==> password == []
    ensures rating.Some? ==> rating.value == Band(Score(password))
    ensures text == if rating.Some? then Some(StrengthText(t, rating.value)) else None
  {
    if Utf16Length(password) == 0 {
      Utf16LengthBounds(password);
      return None, None;
    }
    var strength := 0;
    if Utf16Length(password) >= 8 {
      strength := strength + 1;
    }
    if MixedCase(password) {
      strength := strength + 1;
    }
    if HasLetter(password) && HasDigit(password) {
      strength := strength + 1;
    }
    if HasSpecial(password) {
      strength := strength + 1;
    }
    rating := Some(Band(strength));
    text := Some(StrengthText(t, Band(strength)));
  }

  /**
   * Without line terminators the case criterion is simply "has a lower-case and an
   * upper-case letter".
   */
  lemma MixedCaseWithoutBreaks(s: string)
    requires forall k :: 0 <= k < |s| ==> !IsLineTerminator(s[k])
    ensures MixedCase(s) <==> HasLower(s) && HasUpper(s)
  {
    if HasLower(s) && HasUpper(s) {
      var i :| 0 <= i < |s| && IsLower(s[i]);
      var j :| 0 <= j < |s| && IsUpper(s[j]);
      if i < j {
        assert CasePair(s[i], s[j]) && NoBreakBetween(s, i, j);
      } else {
        assert CasePair(s[j], s[i]) && NoBreakBetween(s, j, i);
      }
    }
    if MixedCase(s) {
      var i, j :| 0 <= i < j < |s| && CasePair(s[i], s[j]) && NoBreakBetween(s, i, j);
      if IsLower(s[i]) {
        assert IsUpper(s[j]);
      } else {
        assert IsUpper(s[i]) && IsLower(s[j]);
      }
    }
  }

  /** A line break between the only two letters hides the case criterion: "a\nB" has no mixed case. */
  lemma LineBreakHidesMixedCase(s: string)
    requires s == "a\nB"
    ensures HasLower(s) && HasUpper(s) && !MixedCase(s)
  {
    assert IsLower(s[0]) && IsUpper(s[2]);
    forall i, j | 0 <= i < j < |s| && CasePair(s[i], s[j]) ensures !NoBreakBetween(s, i, j) {
      assert i == 0 && j == 2;
      assert IsLineTerminator(s[1]);
    }
  }

  /** A criterion met by a password stays met when characters are appended. */
  lemma CriteriaKeptByAppend(s: string, t: string)
    ensures Utf16Length(s) <= Utf16Length(s + t)
    ensures MixedCase(s) ==> MixedCase(s + t)
    ensures HasLetter(s) ==> HasLetter(s + t)
    ensures HasDigit(s) ==> HasDigit(s + t)
    ensures HasSpecial(s) ==> HasSpecial(s + t)
  {
    var u := s + t;
    Utf16LengthConcat(s, t);
    assert forall k :: 0 <= k < |s| ==> u[k] == s[k];
    if MixedCase(s) {
      var i, j :| 0 <= i < j < |s| && CasePair(s[i], s[j]) && NoBreakBetween(s, i, j);
      assert CasePair(u[i], u[j]) && NoBreakBetween(u, i, j);
    }
    if HasLetter(s) {
      var i :| 0 <= i < |s| && (IsLower(s[i]) || IsUpper(s[i]));
      assert IsLower(u[i]) || IsUpper(u[i]);
    }
    if HasDigit(s) {
      var i :| 0 <= i < |s| && IsDigit(s[i]);
      assert IsDigit(u[i]);
    }
    if HasSpecial(s) {
      var i :| 0 <= i < |s| && s[i] in Specials;
      assert u[i] in Specials;
    }
  }

  /** Typing more characters never lowers the score, so never lowers the band. */
  lemma ScoreMonotone(s: string, t: string)
    ensures Score(s) <= Score(s + t)
    ensures Band(Score(s)) == Strong ==> Band(Score(s + t)) == Strong
    ensures Band(Score(s)) == Medium ==> Band(Score(s + t)) != Weak
  {
    CriteriaKeptByAppend(s, t);
  }

  /** "Password1!" meets all four criteria and is rated strong. */
  lemma StrongExample(s: string)
    requires s == "Password1!"
    ensures Score(s) == 4 && Band(Score(s)) == Strong
  {
    Utf16LengthBounds(s);
    assert Utf16Length(s) == |s|;
    assert CasePair(s[0], s[1]) && NoBreakBetween(s, 0, 1);
    assert IsLower(s[1]) && IsDigit(s[8]) && s[9] in Specials;
  }

  /** "password" meets only the length criterion and is rated weak. */
  lemma WeakExample(s: string)
    requires s == "password"
    ensures Score(s) == 1 && Band(Score(s)) == Weak
  {
    Utf16LengthBounds(s);
    assert Utf16Length(s) == |s|;
    forall i | 0 <= i < |s| ensures IsLower(s[i]) {
    }
    assert !MixedCase(s);
    assert !HasDigit(s) && !HasSpecial(s);
  }

  // ---------------------------------------------------------------------------
  // Error lines and the form validators
  // ---------------------------------------------------------------------------

  /** An error element's id (`inputId + '-error'`) mapped to its text. */
  type ErrorLines = map<string, string>

  const LoginEmailError: string := "login-email-error"
  const LoginPasswordError: string := "login-password-error"
  const RegisterNameError: string := "register-name-error"
  const RegisterEmailError: string := "register-email-error"
  const RegisterPasswordError: string := "register-password-error"
  const RegisterConfirmError: string := "register-confirm-password-error"
  const PasswordMatchError: string := "password-match-error"

  /** The text an error line shows; an element not yet created shows nothing. */
  function Shown(lines: ErrorLines, id: string): string {
    if id in lines then lines[id] else ""
  }

  /** `showError`: create the element if needed and set its text. */
  function Show(lines: ErrorLines, id: string, message: string): ErrorLines {
    lines[id := message]
  }

  /** `clearError`: empty the element's text, if the element exists. */
  function Clear(lines: ErrorLines, id: string): ErrorLines {
    if id in lines then lines[id := ""] else lines
  }

  /** One field check: show the message when the field is bad, clear the line otherwise. */
  function Check(lines: ErrorLines, id: string, bad: bool, message: string): (r: ErrorLines)
    ensures Shown(r, id) == (if bad then message else "")
    ensures forall k :: k != id ==> Shown(r, k) == Shown(lines, k)
  {
    if bad then Show(lines, id, message) else Clear(lines, id)
  }

  /** The error lines after `validateLoginForm`: both fields are checked, neither short-circuits. */
  function LoginErrors(lines: ErrorLines, t: Validation, email: string, password: string): ErrorLines {
    var a := Check(lines, LoginEmailError, Trim(email) == "", t.emailEmpty);
    Check(a, LoginPasswordError, Trim(password) == "", t.passwordEmpty)
  }

  /** The confirm line of the register form: an empty confirm is reported before a mismatch. */
  function ConfirmCheck(lines: ErrorLines, t: Validation, password: string, confirm: string): (r: ErrorLines)
    ensures Shown(r, RegisterConfirmError)
            == (if Trim(confirm) == "" then t.confirmEmpty
                else if Trim(password) != Trim(confirm) then t.passwordMismatch else "")
    ensures forall k :: k != RegisterConfirmError ==> Shown(r, k) == Shown(lines, k)
  {
    if Trim(confirm) == "" then Show(lines, RegisterConfirmError, t.confirmEmpty)
    else if Trim(password) != Trim(confirm) then Show(lines, RegisterConfirmError, t.passwordMismatch)
    else Clear(lines, RegisterConfirmError)
  }

  /** The error lines after `validateRegisterForm`: name, email, password, then the confirm line. */
  function RegisterErrors(lines: ErrorLines, t: Validation, name: string, email: string,
                          password: string, confirm: string): ErrorLines
  {
    var a := Check(lines, RegisterNameError, Trim(name) == "", t.nameEmpty);
    var b := Check(a, RegisterEmailError, Trim(email) == "", t.emailEmpty);
    var c := Check(b, RegisterPasswordError, Trim(password) == "", t.passwordEmpty);
    ConfirmCheck(c, t, password, confirm)
  }

  predicate LoginFormValid(email: string, password: string) {
    Trim(email) != "" && Trim(password) != ""
  }

  predicate RegisterFormValid(name: string, email: string, password: string, confirm: string) {
    Trim(name) != "" && Trim(email) != "" && Trim(password) != "" && Trim(confirm) != ""
    && Trim(password) == Trim(confirm)
  }

  /**
   * Each login line shows its own field's message exactly when that field is blank; the
   * form is valid exactly when no line shows an error; lines of other elements stay.
   */
  lemma LoginErrorsSpec(lines: ErrorLines, t: Validation, email: string, password: string, other: string)
    requires ErrorsVisible(t)
    requires other != LoginEmailError && other != LoginPasswordError
    ensures Shown(LoginErrors(lines, t, email, password), LoginEmailError)
            == (if Trim(email) == "" then t.emailEmpty else "")
    ensures Shown(LoginErrors(lines, t, email, password), LoginPasswordError)
            == (if Trim(password) == "" then t.passwordEmpty else "")
    ensures Shown(LoginErrors(lines, t, email, password), other) == Shown(lines, other)
    ensures LoginFormValid(email, password) <==>
              Shown(LoginErrors(lines, t, email, password), LoginEmailError) == ""
              && Shown(LoginErrors(lines, t, email, password), LoginPasswordError) == ""
  {
  }

  /**
   * The register lines: each of name, email and password shows its message exactly when
   * blank; the confirm line shows the "confirm" message when the confirmation is blank and
   * the mismatch message when it differs from the password after trimming; the form is
   * valid exactly when no line shows an error.
   */
  lemma RegisterErrorsSpec(lines: ErrorLines, t: Validation, name: string, email: string,
                           password: string, confirm: string)
    requires ErrorsVisible(t)
    ensures var r := RegisterErrors(lines, t, name, email, password, confirm);
      && Shown(r, RegisterNameError) == (if Trim(name) == "" then t.nameEmpty else "")
      && Shown(r, RegisterEmailError) == (if Trim(email) == "" then t.emailEmpty else "")
      && Shown(r, RegisterPasswordError) == (if Trim(password) == "" then t.passwordEmpty else "")
      && Shown(r, RegisterConfirmError)
         == (if Trim(confirm) == "" then t.confirmEmpty
             else if Trim(password) != Trim(confirm) then t.passwordMismatch else "")
    ensures var r := RegisterErrors(lines, t, name, email, password, confirm);
      RegisterFormValid(name, email, password, confirm) <==>
        Shown(r, RegisterNameError) == "" && Shown(r, RegisterEmailError) == ""
        && Shown(r, RegisterPasswordError) == "" && Shown(r, RegisterConfirmError) == ""
  {
    var a := Check(lines, RegisterNameError, Trim(name) == "", t.nameEmpty);
    var b := Check(a, RegisterEmailError, Trim(email) == "", t.emailEmpty);
    var c := Check(b, RegisterPasswordError, Trim(password) == "", t.passwordEmpty);
    var r := ConfirmCheck(c, t, password, confirm);
    assert Shown(r, RegisterNameError) == Shown(a, RegisterNameError);
    assert Shown(r, RegisterEmailError) == Shown(b, RegisterEmailError);
    assert Shown(r, RegisterPasswordError) == Shown(c, RegisterPasswordError);
  }

  /**
   * A form that passes validation has matching trimmed passwords: the handler's second
   * mismatch check can never fire.
   */
  lemma RegisterValidMatches(name: string, email: string, password: string, confirm: string)
    requires RegisterFormValid(name, email, password, confirm)
    ensures Trim(password) == Trim(confirm) && Trim(password) != ""
  {
  }

  /** `validatePasswordMatch` compares the raw values: a trailing space is a mismatch there, not in the form. */
  lemma MatchIsUntrimmed(password: string, confirm: string)
    requires password == "secret" && confirm == "secret "
    ensures password != confirm
    ensures Trim(password) == Trim(confirm)
  {
    assert TrimStart(confirm) == confirm by {
      assert !IsJsSpace(confirm[0]);
    }
    assert TrimEnd(confirm) == TrimEnd(confirm[..|confirm| - 1]) by {
      assert IsJsSpace(confirm[|confirm| - 1]);
    }
    assert confirm[..|confirm| - 1] == password;
    TrimOfUnpadded(password);
  }

  // ---------------------------------------------------------------------------
  // Authentication messages and the new user document
  // ---------------------------------------------------------------------------

  const DefaultAuthError: string := "An error occurred. Please try again."

  /** `errorMessages`, including its `default` entry. */
  const ErrorMessages: map<string, string> := map[
    "auth/invalid-email" := "Invalid email address.",
    "auth/user-not-found" := "No account found with this email.",
    "auth/wrong-password" := "Incorrect password.",
    "default" := DefaultAuthError]

  /** `errorMessages[error.code] || errorMessages['default']`; a missing code is `None`. */
  function AuthErrorMessage(code: Option<string>): (m: string)
    ensures m in ErrorMessages.Values && m != ""
    ensures code.Some? && code.value in ErrorMessages ==> m == ErrorMessages[code.value]
    ensures code.None? || code.value !in ErrorMessages ==> m == DefaultAuthError
  {
    if code.Some? && code.value in ErrorMessages then ErrorMessages[code.value]
    else assert ErrorMessages["default"] == DefaultAuthError; DefaultAuthError
  }

  /** The alert after a failed e-mail sign-in: the localised headline, a newline, then the reason. */
  function LoginFailedAlert(t: Validation, code: Option<string>): (alert: string)
    ensures alert == t.loginFailed + "\n" + AuthErrorMessage(code)
    ensures |alert| > |t.loginFailed| && alert[|t.loginFailed|] == '\n'
  {
    t.loginFailed + "\n" + AuthErrorMessage(code)
  }

  /**
   * `user.displayName || user.email.split("@")[0]`: the profile name when it is set and
   * non-empty, otherwise the part of the e-mail before its first `@` (the whole address
   * when it has none).
   */
  function DefaultDisplayName(displayName: Option<string>, email: string): (name: string)
    ensures displayName.Some? && displayName.value != "" ==> name == displayName.value
    ensures displayName.None? || displayName.value == "" ==>
              name <= email && '@' !in name && (|name| < |email| ==> email[|name|] == '@')
  {
    if displayName.Some? && displayName.value != "" then displayName.value else BeforeFirst(email, '@')
  }

  /** A bare address has its local part as the default name, and an address without `@` is kept whole. */
  lemma DisplayNameOfAddress(local: string, domain: string)
    requires '@' !in local
    ensures DefaultDisplayName(None, local + "@" + domain) == local
    ensures DefaultDisplayName(Some(""), local) == local
  {
    var email := local + "@" + domain;
    var name := DefaultDisplayName(None, email);
    assert forall k :: 0 <= k < |local| ==> email[k] == local[k];
    assert email[|local|] == '@';
    assert name == email[..|name|];
    assert local == email[..|local|];
  }

  // ---------------------------------------------------------------------------
  // The page
  // ---------------------------------------------------------------------------

  /** What a submit did after its synchronous part. */
  datatype Submit = Rejected | Submitted

  class LoginPage {
    /** Whether a signed-in user is sent on to the planner by the auth-state listener. */
    var allowAutoRedirect: bool
    var currentLang: string
    /** `localStorage['language']`. */
    var storedLanguage: Option<string>
    var errors: ErrorLines
    /**
     * The language `handleLogin` read when it was called: its callbacks use the messages of
     * that language even when another one is chosen before the sign-in settles.
     */
    var loginLang: string

    constructor (stored: Option<string>)
      ensures allowAutoRedirect && currentLang == InitialLanguage(stored)
      ensures storedLanguage == stored && errors == map[] && loginLang == currentLang
    {
      allowAutoRedirect := true;
      currentLang := InitialLanguage(stored);
      storedLanguage := stored;
      errors := map[];
      loginLang := currentLang;
    }

    /** The auth-state listener redirects exactly when a user is signed in and redirects are allowed. */
    function ShouldRedirect(signedIn: bool): (go: bool)
      reads this
      ensures go <==> signedIn && allowAutoRedirect
    {
      signedIn && allowAutoRedirect
    }

    /** A language button: a different language becomes current and is stored; the same one changes nothing. */
    method SelectLanguage(lang: string)
      modifies this
      ensures loginLang == old(loginLang)
      ensures lang != old(currentLang) ==> currentLang == lang && storedLanguage == Some(lang)
      ensures lang == old(currentLang) ==> currentLang == old(currentLang) && storedLanguage == old(storedLanguage)
      ensures allowAutoRedirect == old(allowAutoRedirect) && errors == old(errors)
    {
      if lang != currentLang {
        currentLang := lang;
        storedLanguage := Some(lang);
      }
    }

    method ShowError(id: string, message: string)
      modifies this
      ensures loginLang == old(loginLang)
      ensures errors == Show(old(errors), id, message)
      ensures allowAutoRedirect == old(allowAutoRedirect) && currentLang == old(currentLang)
      ensures storedLanguage == old(storedLanguage)
    {
      errors := errors[id := message];
    }

    method ClearError(id: string)
      modifies this
      ensures loginLang == old(loginLang)
      ensures errors == Clear(old(errors), id)
      ensures allowAutoRedirect == old(allowAutoRedirect) && currentLang == old(currentLang)
      ensures storedLanguage == old(storedLanguage)
    {
      if id in errors {
        errors := errors[id := ""];
      }
    }

    /** `validateLoginForm`, with the field values as parameters. */
    method ValidateLoginForm(email: string, password: string) returns (isValid: bool)
      requires currentLang in Translations
      modifies this
      ensures loginLang == old(loginLang)
      ensures isValid == LoginFormValid(email, password)
      ensures errors == LoginErrors(old(errors), Translations[old(currentLang)], email, password)
      ensures allowAutoRedirect == old(allowAutoRedirect) && currentLang == old(currentLang)
      ensures storedLanguage == old(storedLanguage)
    {
      var t := Translations[currentLang];
      isValid := true;
      if Trim(email) == "" {
        ShowError(LoginEmailError, t.emailEmpty);
        isValid := false;
      } else {
        ClearError(LoginEmailError);
      }
      if Trim(password) == "" {
        ShowError(LoginPasswordError, t.passwordEmpty);
        isValid := false;
      } else {
        ClearError(LoginPasswordError);
      }
    }

    /** `validateRegisterForm`, with the field values as parameters. */
    method ValidateRegisterForm(name: string, email: string, password: string, confirm: string)
      returns (isValid: bool)
      requires currentLang in Translations
      modifies this
      ensures loginLang == old(loginLang)
      ensures isValid == RegisterFormValid(name, email, password, confirm)
      ensures errors == RegisterErrors(old(errors), Translations[old(currentLang)], name, email, password, confirm)
      ensures allowAutoRedirect == old(allowAutoRedirect) && currentLang == old(currentLang)
      ensures storedLanguage == old(storedLanguage)
    {
      var t := Translations[currentLang];
      isValid := true;
      if Trim(name) == "" {
        ShowError(RegisterNameError, t.nameEmpty);
        isValid := false;
      } else {
        ClearError(RegisterNameError);
      }
      if Trim(email) == "" {
        ShowError(RegisterEmailError, t.emailEmpty);
        isValid := false;
      } else {
        ClearError(RegisterEmailError);
      }
      if Trim(password) == "" {
        ShowError(RegisterPasswordError, t.passwordEmpty);
        isValid := false;
      } else {
        ClearError(RegisterPasswordError);
      }
      if Trim(confirm) == "" {
        ShowError(RegisterConfirmError, t.confirmEmpty);
        isValid := false;
      } else if Trim(password) != Trim(confirm) {
        ShowError(RegisterConfirmError, t.passwordMismatch);
        isValid := false;
      } else {
        ClearError(RegisterConfirmError);
      }
    }

    /**
     * `validatePasswordMatch`, run on every keystroke in the confirm field: the raw values
     * are compared and the match line shows the mismatch message or nothing.
     */
    method ValidatePasswordMatch(password: string, confirm: string) returns (matched: bool)
      requires currentLang in Translations
      modifies this
      ensures loginLang == old(loginLang)
      ensures matched <==> password == confirm
      ensures errors == old(errors)[PasswordMatchError :=
                if password == confirm then "" else Translations[old(currentLang)].passwordMismatch]
      ensures allowAutoRedirect == old(allowAutoRedirect) && currentLang == old(currentLang)
      ensures storedLanguage == old(storedLanguage)
    {
      var t := Translations[currentLang];
      if password != confirm {
        errors := errors[PasswordMatchError := t.passwordMismatch];
        return false;
      }
      errors := errors[PasswordMatchError := ""];
      return true;
    }

    /**
     * `handleLogin` up to the sign-in call: redirects are switched off before the form is
     * even validated, and the call is made only for a valid form.
     */
    method HandleLogin(email: string, password: string) returns (submit: Submit)
      requires currentLang in Translations
      modifies this
      ensures !allowAutoRedirect && loginLang == old(currentLang)
      ensures submit == Submitted <==> LoginFormValid(email, password)
      ensures errors == LoginErrors(old(errors), Translations[old(currentLang)], email, password)
      ensures currentLang == old(currentLang) && storedLanguage == old(storedLanguage)
    {
      allowAutoRedirect := false;
      loginLang := currentLang;
      var ok := ValidateLoginForm(email, password);
      if !ok {
        return Rejected;
      }
      submit := Submitted;
    }

    /**
     * A failed e-mail sign-in: the alert names the reason in the language the sign-in was
     * started in; `allowAutoRedirect` is left switched off.
     */
    method LoginFailed(code: Option<string>) returns (alert: string)
      requires loginLang in Translations
      ensures alert == LoginFailedAlert(Translations[loginLang], code)
    {
      alert := Translations[loginLang].loginFailed + "\n" + AuthErrorMessage(code);
    }

    /**
     * `handleRegister` up to the account call: an invalid form changes nothing else; a valid
     * one switches redirects off while the account is created.
     */
    method HandleRegister(name: string, email: string, password: string, confirm: string)
      returns (submit: Submit)
      requires currentLang in Translations
      modifies this
      ensures loginLang == old(loginLang)
      ensures submit == Submitted <==> RegisterFormValid(name, email, password, confirm)
      ensures allowAutoRedirect == (if submit == Submitted then false else old(allowAutoRedirect))
      ensures errors == RegisterErrors(old(errors), Translations[old(currentLang)], name, email, password, confirm)
      ensures currentLang == old(currentLang) && storedLanguage == old(storedLanguage)
    {
      var ok := ValidateRegisterForm(name, email, password, confirm);
      if !ok {
        return Rejected;
      }
      RegisterValidMatches(name, email, password, confirm);
      allowAutoRedirect := false;
      submit := Submitted;
    }

    /** The account call settled: redirects are allowed again on success (after the timers) and on failure. */
    method RegisterSettled(succeeded: bool)
      modifies this
      ensures loginLang == old(loginLang)
      ensures allowAutoRedirect
      ensures currentLang == old(currentLang) && storedLanguage == old(storedLanguage) && errors == old(errors)
    {
      allowAutoRedirect := true;
    }

    /** `handleGoogleLogin` up to the popup: redirects are switched off. */
    method HandleGoogleLogin()
      modifies this
      ensures loginLang == old(loginLang)
      ensures !allowAutoRedirect
      ensures currentLang == old(currentLang) && storedLanguage == old(storedLanguage) && errors == old(errors)
    {
      allowAutoRedirect := false;
    }

    /** The popup settled: redirects are allowed again whatever the outcome. */
    method GoogleSettled(succeeded: bool)
      modifies this
      ensures loginLang == old(loginLang)
      ensures allowAutoRedirect
      ensures currentLang == old(currentLang) && storedLanguage == old(storedLanguage) && errors == old(errors)
    {
      allowAutoRedirect := true;
    }
  }
}
