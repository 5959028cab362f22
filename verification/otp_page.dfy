/** The OTP verification page: query-parameter defaults, normalisation of
    what is typed, the two button conditions, the verify and resend handlers
    and the one-second resend countdown. */
module OtpPage {
  import opened Wrappers
  import opened Text
  import Auth

  /** `searchParams.get(name) || fallback`: an absent or empty parameter
      gives the fallback. */
  function ParamOr(value: Option<string>, fallback: string): (r: string)
    ensures value.Some? && value.value != "" ==> r == value.value
    ensures value.None? || value.value == "" ==> r == fallback
  {
    match value
    case Some(v) => if v != "" then v else fallback
    case None => fallback
  }

  /** The phone and purpose the page works with. */
  function Phone(param: Option<string>): string {
    ParamOr(param, "")
  }

  function Purpose(param: Option<string>): string {
    ParamOr(param, "registration")
  }

  /** With no query parameters the phone is empty and the purpose is
      registration. */
  lemma QueryDefaults()
    ensures Phone(None) == "" && Purpose(None) == "registration"
    ensures Purpose(Some("")) == "registration"
  {
  }

  const OtpLength: nat := 6

  /** `value.replace(/\D/g, "").slice(0, 6)`. */
  function Normalize(input: string): (r: string)
    ensures |r| <= OtpLength && AllDigits(r)
    ensures r <= DigitsOnly(input)
    ensures |r| == if |DigitsOnly(input)| < OtpLength then |DigitsOnly(input)| else OtpLength
  {
    var d := DigitsOnly(input);
    if |d| <= OtpLength then d else d[..OtpLength]
  }

  /** Normalising what is already normalised changes nothing, so the field
      is stable under re-rendering. */
  lemma NormalizeIdempotent(input: string)
    ensures Normalize(Normalize(input)) == Normalize(input)
  {
    var r := Normalize(input);
    assert DigitsOnly(r) == r;
  }

  /** Typing only digits, at most six of them, keeps them all. */
  lemma NormalizeKeepsShortDigitStrings(input: string)
    requires AllDigits(input) && |input| <= OtpLength
    ensures Normalize(input) == input
  {
  }

  /** The state the page keeps. */
  datatype PageState = PageState(
    otp: string,
    isLoading: bool,
    isResending: bool,
    error: string,
    success: string,
    countdown: int)

  const Initial: PageState := PageState("", false, false, "", "", 0)

  /** The field's change handler. */
  function TypeOtp(s: PageState, input: string): PageState {
    s.(otp := Normalize(input))
  }

  /** "Verify OTP" is enabled when no verification is running and exactly six
      digits are in the field. */
  predicate VerifyEnabled(s: PageState) {
    !s.isLoading && |s.otp| == OtpLength
  }

  /** After typing, the button is enabled exactly when the typed text holds
      at least six digits and nothing is loading. */
  lemma VerifyEnabledAfterTyping(s: PageState, input: string)
    ensures VerifyEnabled(TypeOtp(s, input)) <==> !s.isLoading && |DigitsOnly(input)| >= OtpLength
  {
  }

  /** Where the page sends the user after a successful verification. */
  function RedirectAfterVerify(purpose: string): (r: Option<string>)
    ensures r.Some? <==> purpose == "registration" || purpose == "login"
    ensures purpose == "registration" ==> r == Some("/register?verified=true")
    ensures purpose == "login" ==> r == Some("/login?verified=true")
  {
    if purpose == "registration" then Some("/register?verified=true")
    else if purpose == "login" then Some("/login?verified=true")
    else None
  }

  /** `handleVerifyOTP` once `verifyOTP` has answered with `result`: the
      state when the handler returns, and the page it will navigate to. */
  function HandleVerify(s: PageState, purpose: string, result: Auth.Outcome): (r: (PageState, Option<string>))
    ensures !r.0.isLoading
    ensures result.success ==> r.0.error == "" && r.0.success == "OTP verified successfully!"
    ensures result.success ==> r.1 == RedirectAfterVerify(purpose)
    ensures !result.success ==> r.0.error == result.message && r.0.success == s.success && r.1.None?
    ensures r.0.otp == s.otp && r.0.countdown == s.countdown && r.0.isResending == s.isResending
  {
    var cleared := s.(isLoading := true, error := "");
    var answered :=
      if result.success then cleared.(success := "OTP verified successfully!")
      else cleared.(error := result.message);
    (answered.(isLoading := false), if result.success then RedirectAfterVerify(purpose) else None)
  }

  /** The purpose read from the query decides where a successful verify
      leads: to the registration page exactly when the parameter is absent,
      empty, or "registration". */
  lemma VerifyRedirectsToRegister(s: PageState, param: Option<string>, result: Auth.Outcome)
    ensures HandleVerify(s, Purpose(param), result).1 == Some("/register?verified=true") <==>
            result.success && (param.None? || param.value == "" || param.value == "registration")
  {
  }

  /** With no purpose in the query, a successful verify goes back to
      registration. */
  lemma DefaultPurposeRedirectsToRegister(s: PageState, result: Auth.Outcome)
    requires result.success
    ensures HandleVerify(s, Purpose(None), result).1 == Some("/register?verified=true")
    ensures HandleVerify(s, Purpose(Some("")), result).1 == Some("/register?verified=true")
  {
  }

  /** The countdown start after a successful resend, in seconds. */
  const ResendDelay: int := 60

  /** `handleResendOTP` once `sendOTP` has answered with `result`. */
  function HandleResend(s: PageState, result: Auth.Outcome): (r: PageState)
    ensures !r.isResending
    ensures result.success ==> r.countdown == ResendDelay && r.success == "New OTP sent successfully!" && r.error == ""
    ensures !result.success ==> r.countdown == s.countdown && r.error == result.message && r.success == s.success
    ensures r.otp == s.otp && r.isLoading == s.isLoading
  {
    var cleared := s.(isResending := true, error := "");
    var answered :=
      if result.success then cleared.(success := "New OTP sent successfully!", countdown := ResendDelay)
      else cleared.(error := result.message);
    answered.(isResending := false)
  }

  /** One tick of the interval: down by one, stopping at zero. */
  function Tick(prev: int): (r: int)
    ensures r >= 0
    ensures prev >= 1 ==> r == prev - 1
    ensures prev <= 1 ==> r == 0
  {
    if prev <= 1 then 0 else prev - 1
  }

  function Ticks(c: int, n: nat): int
    decreases n
  {
    if n == 0 then c else Ticks(Tick(c), n - 1)
  }

  /** After `n` ticks from a non-negative count `c` the count is
      `max(0, c - n)`: it falls by one per tick and never goes below zero. */
  lemma {:induction false} TicksValue(c: nat, n: nat)
    ensures Ticks(c, n) == if c >= n then c - n else 0
  {
    if n > 0 {
      TicksValue(Tick(c), n - 1);
    }
  }

  /** "Resend OTP" is enabled when no resend is running and the countdown
      has run out. */
  predicate ResendEnabled(s: PageState) {
    !s.isResending && s.countdown <= 0
  }

  /** After a successful resend the button stays disabled for exactly sixty
      ticks. */
  lemma ResendLockout(s: PageState, result: Auth.Outcome, n: nat)
    requires result.success
    ensures var after := HandleResend(s, result);
            ResendEnabled(after.(countdown := Ticks(after.countdown, n))) <==> n >= 60
  {
    TicksValue(60, n);
  }
}
