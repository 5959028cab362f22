/** The registration page's submit handler, a three-step machine: the form
    sends an OTP, the OTP step verifies it and registers the user, and the
    success step redirects to the user's dashboard. */
module RegisterPage {
  import opened Wrappers
  import opened Text
  import Auth

  datatype Step = FormStep | OtpStep | SuccessStep

  /** The form's fields. */
  datatype FormData = FormData(
    username: string,
    name: string,
    email: string,
    phone: string,
    businessName: string,
    address: string,
    city: string,
    pincode: string,
    businessType: string,
    description: string,
    agreeTerms: bool)

  datatype RegisterState = RegisterState(
    userType: string,
    form: FormData,
    step: Step,
    otp: string,
    isLoading: bool,
    error: string)

  /** The password the page sends with every registration. */
  const FixedPassword: string := "temp123"

  /** The categories sent with the registration: the business type cut at
      every comma, with no trimming. */
  function ProductCategories(businessType: string): (r: seq<string>)
    ensures |r| >= 1
    ensures forall k :: 0 <= k < |r| ==> ',' !in r[k]
    ensures Join(r, ",") == businessType
  {
    SplitCharPieces(businessType, ',');
    JoinSplit(businessType, ",");
    Split(businessType, ",")
  }

  /** Putting the categories back together with "," gives the business type
      as typed, so splitting loses nothing. */
  lemma ProductCategoriesJoin(businessType: string)
    ensures Join(ProductCategories(businessType), ",") == businessType
  {
    JoinSplit(businessType, ",");
  }

  /** No trimming: the space after a comma stays in the next category. */
  lemma ProductCategoriesKeepSpaces()
    ensures ProductCategories("a, b") == ["a", " b"]
  {
    assert "a, b" == "a" + "," + " b";
    assert ("a" + ("," + " b"))[0..] == "a, b" && "a, b"[0] != ',';
    assert NoCutInside("a", "," + " b", ",");
    assert (" b" + [])[0..] == " b" && (" b" + [])[1..] == "b";
    SplitPiece("a", " b", ",");
    SplitWhole(" b", ",");
  }

  /** The registration request built from the form. */
  function RegisterRequest(s: RegisterState): (r: Auth.RegisterData)
    ensures r.password == FixedPassword && r.userType == s.userType
    ensures r.productCategories == Some(ProductCategories(s.form.businessType))
    ensures r.companyName == Some(s.form.businessName) && r.businessName == Some(s.form.businessName)
    ensures r.phone == s.form.phone && r.email == s.form.email && r.fullName == s.form.name
    ensures r.username == s.form.username && r.businessType == Some(s.form.businessType)
    ensures r.address == s.form.address && r.city == s.form.city && r.pincode == s.form.pincode
    ensures r.businessDescription == Some(s.form.description)
  {
    Auth.RegisterData(
      s.form.email, FixedPassword, s.form.phone, s.form.name, s.form.username, s.userType,
      Some(s.form.businessName), Some(s.form.businessType), Some(s.form.businessName),
      Some(ProductCategories(s.form.businessType)), s.form.address, s.form.city, s.form.pincode,
      Some(s.form.description))
  }

  /** The dashboard the success step sends the user to. */
  function DashboardFor(userType: string): (r: string)
    ensures userType == "vendor" <==> r == "/vendor-dashboard"
    ensures userType != "vendor" <==> r == "/supplier-dashboard"
  {
    if userType == "vendor" then "/vendor-dashboard" else "/supplier-dashboard"
  }

  /** `handleSubmit`, given the answers of the helpers it may call: `sent`
      from `sendOTP`, `verified` from `verifyOTP`, `registered` from
      `registerUser`. Returns the state when the handler finishes and the
      page it will navigate to. */
  function HandleSubmit(s: RegisterState, sent: Auth.Outcome, verified: Auth.Outcome,
                        registered: Auth.UserOutcome): (r: (RegisterState, Option<string>))
    ensures !r.0.isLoading
    ensures r.0.form == s.form && r.0.userType == s.userType && r.0.otp == s.otp
    ensures s.step == FormStep ==>
      if sent.success then r.0.step == OtpStep && r.0.error == ""
      else r.0.step == FormStep && r.0.error == sent.message
    ensures s.step == OtpStep ==>
      (r.0.step == SuccessStep <==> verified.success && registered.success)
    ensures s.step == OtpStep && r.0.step == SuccessStep ==> r.0.error == ""
    ensures s.step == OtpStep && !verified.success ==> r.0.step == OtpStep && r.0.error == verified.message
    ensures s.step == OtpStep && verified.success && !registered.success ==>
      r.0.step == OtpStep && r.0.error == registered.message
    ensures s.step == SuccessStep ==> r.0 == s.(isLoading := false, error := "")
    ensures r.1.Some? <==> s.step == OtpStep && r.0.step == SuccessStep
    ensures r.1.Some? ==> r.1.value == DashboardFor(s.userType)
  {
    var started := s.(isLoading := true, error := "");
    var (finished, redirect) :=
      match s.step
      case FormStep =>
        if sent.success then (started.(step := OtpStep), None)
        else (started.(error := sent.message), None)
      case OtpStep =>
        if verified.success then
          if registered.success then (started.(step := SuccessStep), Some(DashboardFor(s.userType)))
          else (started.(error := registered.message), None)
        else (started.(error := verified.message), None)
      case SuccessStep => (started, None);
    (finished.(isLoading := false), redirect)
  }

  function StepRank(step: Step): nat {
    match step
    case FormStep => 0
    case OtpStep => 1
    case SuccessStep => 2
  }

  /** The steps only move forward, one at a time. */
  lemma StepsOnlyAdvance(s: RegisterState, sent: Auth.Outcome, verified: Auth.Outcome, registered: Auth.UserOutcome)
    ensures var s' := HandleSubmit(s, sent, verified, registered).0;
            StepRank(s.step) <= StepRank(s'.step) <= StepRank(s.step) + 1
  {
  }

  /** The submit button is enabled when the terms are agreed and nothing is
      loading. */
  predicate SubmitEnabled(s: RegisterState) {
    s.form.agreeTerms && !s.isLoading
  }

  /** Since every submit clears the loading flag, the button is usable again
      afterwards exactly when the terms are agreed. */
  lemma SubmitEnabledAfterSubmit(s: RegisterState, sent: Auth.Outcome, verified: Auth.Outcome,
                                 registered: Auth.UserOutcome)
    ensures SubmitEnabled(HandleSubmit(s, sent, verified, registered).0) <==> s.form.agreeTerms
  {
  }
}
