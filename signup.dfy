/**
 * The signup form: the password-strength meter, the three validation checks
 * that run in a fixed order before an account is created, and the form state
 * the submit handler updates. The backend calls themselves are outside the
 * model; their combined outcome is a parameter of the handler.
 */
module Signup {
  import opened Wrappers

  const PasswordMismatch: string := "Passwords do not match"
  const PasswordTooShort: string := "Password must be at least 8 characters long"
  const TermsNotAccepted: string := "Please accept the terms and conditions"
  const SignupFailed: string := "Signup failed"

  /**
   * JavaScript's `s.length`: the number of UTF-16 code units, so a character
   * outside the Basic Multilingual Plane (an emoji, say) counts twice.
   */
  function Utf16Length(s: string): (n: nat)
    ensures |s| <= n <= 2 * |s|
    ensures n == 0 <==> s == []
  {
    if s == [] then 0
    else (if s[0] as int >= 0x1_0000 then 2 else 1) + Utf16Length(s[1..])
  }

  /** A string of Basic Multilingual Plane characters has one code unit per character. */
  lemma {:induction false} Utf16LengthOfBmp(s: string)
    requires forall i :: 0 <= i < |s| ==> s[i] as int < 0x1_0000
    ensures Utf16Length(s) == |s|
  {
    if s != [] {
      Utf16LengthOfBmp(s[1..]);
    }
  }

  /** Code units add up over a concatenation. */
  lemma {:induction false} Utf16LengthAppend(a: string, b: string)
    ensures Utf16Length(a + b) == Utf16Length(a) + Utf16Length(b)
  {
    if a == [] {
      assert a + b == b;
    } else {
      assert (a + b)[1..] == a[1..] + b;
      Utf16LengthAppend(a[1..], b);
    }
  }

  /** Value of the strength meter: a percentage, a caption and a colour class. */
  datatype Strength = Strength(strength: int, caption: string, color: string)

  /**
   * The meter is a step table on the password's length: empty 0, below 6
   * Weak (25), below 8 Fair (50), below 12 Good (75), otherwise Strong (100).
   */
  function PasswordStrength(password: string): (s: Strength)
    ensures s.strength == 0 <==> Utf16Length(password) == 0
    ensures s.strength >= 50 <==> Utf16Length(password) >= 6
    ensures s.strength >= 75 <==> Utf16Length(password) >= 8
    ensures s.strength == 100 <==> Utf16Length(password) >= 12
    ensures (s.strength, s.caption) in {(0, ""), (25, "Weak"), (50, "Fair"), (75, "Good"), (100, "Strong")}
  {
    var n := Utf16Length(password);
    if n == 0 then Strength(0, "", "")
    else if n < 6 then Strength(25, "Weak", "bg-danger-500")
    else if n < 8 then Strength(50, "Fair", "bg-warning-500")
    else if n < 12 then Strength(75, "Good", "bg-accent-500")
    else Strength(100, "Strong", "bg-success-500")
  }

  /** A longer password never shows a weaker meter. */
  lemma StrengthMonotone(shorter: string, longer: string)
    requires Utf16Length(shorter) <= Utf16Length(longer)
    ensures PasswordStrength(shorter).strength <= PasswordStrength(longer).strength
  {
  }

  /**
   * The first validation check that fails, in the order the handler runs
   * them: confirmation mismatch, then fewer than 8 code units, then terms
   * not accepted.
   */
  function ValidationError(password: string, confirmPassword: string, acceptTerms: bool): (e: Option<string>)
    ensures e.None? <==> password == confirmPassword && Utf16Length(password) >= 8 && acceptTerms
    ensures password != confirmPassword ==> e == Some(PasswordMismatch)
    ensures password == confirmPassword && Utf16Length(password) < 8 ==> e == Some(PasswordTooShort)
    ensures password == confirmPassword && Utf16Length(password) >= 8 && !acceptTerms ==> e == Some(TermsNotAccepted)
  {
    if password != confirmPassword then Some(PasswordMismatch)
    else if Utf16Length(password) < 8 then Some(PasswordTooShort)
    else if !acceptTerms then Some(TermsNotAccepted)
    else None
  }

  /** A password that gets past validation shows at least a Good meter. */
  lemma ValidPasswordIsGoodOrStrong(password: string, confirmPassword: string, acceptTerms: bool)
    requires ValidationError(password, confirmPassword, acceptTerms).None?
    ensures PasswordStrength(password).strength >= 75
    ensures PasswordStrength(password).caption in {"Good", "Strong"}
  {
  }

  /**
   * Four emoji are four characters but eight code units: they pass the
   * length check and show a Good meter.
   */
  lemma EmojiCountTwice()
    ensures Utf16Length("\U{1F600}\U{1F600}\U{1F600}\U{1F600}") == 8
    ensures ValidationError("\U{1F600}\U{1F600}\U{1F600}\U{1F600}", "\U{1F600}\U{1F600}\U{1F600}\U{1F600}", true).None?
    ensures PasswordStrength("\U{1F600}\U{1F600}\U{1F600}\U{1F600}").caption == "Good"
  {
    var e := "\U{1F600}";
    assert Utf16Length(e) == 2;
    Utf16LengthAppend(e, e);
    assert e + e == "\U{1F600}\U{1F600}";
    Utf16LengthAppend(e + e, e + e);
    assert (e + e) + (e + e) == "\U{1F600}\U{1F600}\U{1F600}\U{1F600}";
  }

  /** `disabled={loading || !acceptTerms}` on the submit button. */
  function SubmitDisabled(loading: bool, acceptTerms: bool): (d: bool)
    ensures loading ==> d
    ensures !acceptTerms ==> d
    ensures acceptTerms && !loading ==> !d
  {
    loading || !acceptTerms
  }

  /**
   * Through the button, the terms check can never be the one that fails:
   * the button is disabled until the terms are accepted.
   */
  lemma EnabledSubmitNeverFailsOnTerms(loading: bool, password: string, confirmPassword: string, acceptTerms: bool)
    requires !SubmitDisabled(loading, acceptTerms)
    ensures ValidationError(password, confirmPassword, acceptTerms) != Some(TermsNotAccepted)
  {
  }

  /** The hint under the confirmation field. */
  datatype MatchHint = NoHint | PasswordsMatch | PasswordsDiffer

  /**
   * Nothing while the confirmation is empty; otherwise "Passwords match"
   * exactly when the two fields are equal.
   */
  function MatchIndicator(password: string, confirmPassword: string): (h: MatchHint)
    ensures h == NoHint <==> confirmPassword == ""
    ensures h == PasswordsMatch <==> confirmPassword != "" && password == confirmPassword
    ensures h == PasswordsDiffer <==> confirmPassword != "" && password != confirmPassword
  {
    if confirmPassword == "" then NoHint
    else if password == confirmPassword then PasswordsMatch
    else PasswordsDiffer
  }

  /** The hint agrees with the first validation check. */
  lemma MatchHintAgreesWithValidation(password: string, confirmPassword: string, acceptTerms: bool)
    ensures MatchIndicator(password, confirmPassword) == PasswordsDiffer
            ==> ValidationError(password, confirmPassword, acceptTerms) == Some(PasswordMismatch)
    ensures MatchIndicator(password, confirmPassword) == PasswordsMatch
            ==> ValidationError(password, confirmPassword, acceptTerms) != Some(PasswordMismatch)
  {
  }

  /**
   * What the backend calls of the `try` block (create the account, open a
   * session, fetch the user) came to: all succeeded, or one threw an error
   * whose `message` may be missing.
   */
  datatype BackendOutcome = Created | Failed(message: Option<string>)

  /** The form's state. */
  class SignupForm {
    var email: string
    var password: string
    var name: string
    var confirmPassword: string
    var acceptTerms: bool
    var error: string
    var loading: bool
    var toastOpen: bool
    /** Whether `onSignup(user)` has reported a new user to the app. */
    var signedUp: bool

    constructor ()
      ensures email == "" && password == "" && name == "" && confirmPassword == ""
      ensures !acceptTerms && error == "" && !loading && !toastOpen && !signedUp
      ensures SubmitDisabled(loading, acceptTerms)
    {
      email, password, name, confirmPassword := "", "", "", "";
      acceptTerms, error, loading, toastOpen, signedUp := false, "", false, false, false;
    }

    /**
     * `handleSignup`: raise `loading` and clear the error, stop at the first
     * failing check with its message, otherwise call the backend and report
     * its outcome; `loading` is cleared on every way out. `createCalled`
     * says whether `account.create` was reached.
     */
    method HandleSignup(outcome: BackendOutcome) returns (createCalled: bool)
      modifies this
      ensures email == old(email) && password == old(password) && name == old(name)
      ensures confirmPassword == old(confirmPassword) && acceptTerms == old(acceptTerms)
      ensures !loading
      ensures SubmitDisabled(loading, acceptTerms) <==> !acceptTerms
      ensures createCalled <==> ValidationError(password, confirmPassword, acceptTerms).None?
      ensures !createCalled ==> error == ValidationError(password, confirmPassword, acceptTerms).value
                                && toastOpen == old(toastOpen) && signedUp == old(signedUp)
      ensures createCalled && outcome.Created? ==> error == "" && toastOpen && signedUp
      ensures createCalled && outcome.Failed? ==>
                error == FailureMessage(outcome.message) && toastOpen == old(toastOpen) && signedUp == old(signedUp)
    {
      loading := true;
      error := "";
      createCalled := false;

      if password != confirmPassword {
        error := PasswordMismatch;
        loading := false;
        return;
      }
      if Utf16Length(password) < 8 {
        error := PasswordTooShort;
        loading := false;
        return;
      }
      if !acceptTerms {
        error := TermsNotAccepted;
        loading := false;
        return;
      }

      createCalled := true;
      match outcome {
        case Created =>
          signedUp := true;
          toastOpen := true;
        case Failed(message) =>
          error := FailureMessage(message);
      }
      loading := false;
    }
  }

  /** `err.message || "Signup failed"`: a missing or empty message is replaced. */
  function FailureMessage(message: Option<string>): (m: string)
    ensures m != ""
    ensures message.Some? && message.value != "" ==> m == message.value
    ensures !(message.Some? && message.value != "") ==> m == SignupFailed
  {
    if message.Some? && message.value != "" then message.value else SignupFailed
  }
}
