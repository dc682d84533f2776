/**
  The OTP-gated scan form of components/otp-form-modal.tsx: the seven form fields, the
  `otpSent` / `otpVerified` gate, the simulated send and submit delays, the OTP input
  sanitiser, and the callbacks the form makes to its parent.
*/
module OtpForm {
  import Text

  /** The form's seven text fields. */
  datatype FormData = FormData(
    email: string,
    otp: string,
    fullName: string,
    company: string,
    phone: string,
    notes: string,
    requirements: string)

  /** Every field empty: the initial state and the state after a submit. */
  const EmptyForm := FormData("", "", "", "", "", "", "")

  /** The inputs that go through `handleInputChange`, by their `name` attribute. */
  datatype DetailField = FullName | Company | Phone | Notes | Requirements

  /** `{ ...formData, [name]: value }`. */
  function WithField(data: FormData, field: DetailField, value: string): FormData {
    match field
    case FullName => data.(fullName := value)
    case Company => data.(company := value)
    case Phone => data.(phone := value)
    case Notes => data.(notes := value)
    case Requirements => data.(requirements := value)
  }

  /** The value of a detail field. */
  function FieldValue(data: FormData, field: DetailField): string {
    match field
    case FullName => data.fullName
    case Company => data.company
    case Phone => data.phone
    case Notes => data.notes
    case Requirements => data.requirements
  }

  /**
    Changing one field sets that field and leaves every other field, the email and the
    OTP included, as it was.
  */
  lemma WithFieldChangesOnlyThatField(data: FormData, field: DetailField, value: string)
    ensures FieldValue(WithField(data, field, value), field) == value
    ensures forall other :: other != field ==> FieldValue(WithField(data, field, value), other) == FieldValue(data, other)
    ensures WithField(data, field, value).email == data.email && WithField(data, field, value).otp == data.otp
  {
  }

  /** `s.replace(/\D/g, "")`: the ASCII digits of `s`, in order. */
  function KeepDigits(s: string): (r: string)
    ensures |r| <= |s|
    ensures forall i :: 0 <= i < |r| ==> Text.IsDigit(r[i])
    ensures (forall i :: 0 <= i < |s| ==> Text.IsDigit(s[i])) ==> r == s
  {
    if s == [] then []
    else (if Text.IsDigit(s[0]) then [s[0]] else []) + KeepDigits(s[1..])
  }

  /** Filtering distributes over concatenation: the digits of `a + b` are those of `a`, then those of `b`. */
  lemma {:induction false} KeepDigitsAppend(a: string, b: string)
    ensures KeepDigits(a + b) == KeepDigits(a) + KeepDigits(b)
    decreases |a|
  {
    if a == [] {
      assert a + b == b;
    } else {
      assert (a + b)[1..] == a[1..] + b;
      KeepDigitsAppend(a[1..], b);
    }
  }

  /** The OTP input's change handler: digits only, at most six of them. */
  function SanitizeOtp(raw: string): (otp: string)
    ensures |otp| <= 6
    ensures forall i :: 0 <= i < |otp| ==> Text.IsDigit(otp[i])
    ensures |otp| == if |KeepDigits(raw)| < 6 then |KeepDigits(raw)| else 6
    ensures otp == KeepDigits(raw)[..|otp|]
  {
    var digits := KeepDigits(raw);
    if |digits| <= 6 then digits else digits[..6]
  }

  /** Sanitising twice is sanitising once, and a short all-digit code passes unchanged. */
  lemma SanitizeOtpIdempotent(raw: string)
    ensures SanitizeOtp(SanitizeOtp(raw)) == SanitizeOtp(raw)
    ensures (|raw| <= 6 && forall i :: 0 <= i < |raw| ==> Text.IsDigit(raw[i])) ==> SanitizeOtp(raw) == raw
  {
  }

  /** Typing more characters never changes the digits already kept. */
  lemma SanitizeOtpExtends(raw: string, more: string)
    ensures |SanitizeOtp(raw)| <= |SanitizeOtp(raw + more)|
    ensures SanitizeOtp(raw) == SanitizeOtp(raw + more)[..|SanitizeOtp(raw)|]
  {
    KeepDigitsAppend(raw, more);
  }

  /** What the form tells its parent: `onSubmit(formData)` or `onClose()`. */
  datatype Notice = Submitted(data: FormData) | Closed

  /**
    What the form shows and allows: the email input locked, the send button disabled,
    the OTP entry shown, the verify button disabled, the detail fields shown, and the
    submit button disabled.
  */
  datatype Guards = Guards(
    emailLocked: bool,
    sendDisabled: bool,
    otpEntryShown: bool,
    verifyDisabled: bool,
    detailsShown: bool,
    submitDisabled: bool)

  class OtpFormModal {
    var formData: FormData
    var otpSent: bool
    var otpVerified: bool
    var loading: bool
    var submitting: bool
    /** Send timers started by `handleSendOTP` that have not fired yet. */
    var pendingSends: nat
    /** Submit timers not fired yet, each holding the form data its callback closed over. */
    var pendingSubmits: seq<FormData>
    /** The callbacks made to the parent, in order. */
    var notices: seq<Notice>

    constructor ()
      ensures formData == EmptyForm && !otpSent && !otpVerified && !loading && !submitting
      ensures pendingSends == 0 && pendingSubmits == [] && notices == []
    {
      formData := EmptyForm;
      otpSent, otpVerified, loading, submitting := false, false, false, false;
      pendingSends := 0;
      pendingSubmits := [];
      notices := [];
    }

    /** The email input is locked once the code has been sent. */
    predicate EmailLocked()
      reads this
    {
      otpSent
    }

    /** The send button: disabled without an email, after sending, and while sending. */
    predicate SendDisabled()
      reads this
    {
      formData.email == "" || otpSent || loading
    }

    /** The OTP input and its verify button are shown only between sending and verifying. */
    predicate OtpEntryShown()
      reads this
    {
      otpSent && !otpVerified
    }

    /** The verify button is enabled only for a full six-character code. */
    predicate VerifyDisabled()
      reads this
    {
      |formData.otp| != 6
    }

    /** The detail fields and the submit button appear once the email is verified. */
    predicate DetailsShown()
      reads this
    {
      otpVerified
    }

    /** The submit button is disabled while a submit is in flight. */
    predicate SubmitDisabled()
      reads this
    {
      submitting
    }

    /** The six guards above, as the form currently shows them. */
    function Screen(): Guards
      reads this
    {
      Guards(EmailLocked(), SendDisabled(), OtpEntryShown(), VerifyDisabled(), DetailsShown(), SubmitDisabled())
    }

    /** `handleEmailChange`. */
    method EmailChange(value: string)
      modifies this
      ensures formData == old(formData).(email := value)
      ensures otpSent == old(otpSent) && otpVerified == old(otpVerified) && loading == old(loading) && submitting == old(submitting)
      ensures pendingSends == old(pendingSends) && pendingSubmits == old(pendingSubmits) && notices == old(notices)
    {
      formData := formData.(email := value);
    }

    /** `handleSendOTP`: nothing without an email; otherwise start loading and the one-second timer. */
    method SendOtp()
      modifies this
      ensures old(formData.email) == "" ==> loading == old(loading) && pendingSends == old(pendingSends)
      ensures old(formData.email) != "" ==> loading && pendingSends == old(pendingSends) + 1
      ensures old(formData.email) != "" ==> SendDisabled()
      ensures formData == old(formData) && otpSent == old(otpSent) && otpVerified == old(otpVerified) && submitting == old(submitting)
      ensures pendingSubmits == old(pendingSubmits) && notices == old(notices)
    {
      if formData.email == "" {
        return;
      }
      loading := true;
      pendingSends := pendingSends + 1;
    }

    /** The send timer fires: the code counts as sent and loading ends. */
    method SendTimerFires()
      requires pendingSends > 0
      modifies this
      ensures otpSent && !loading && pendingSends == old(pendingSends) - 1
      ensures EmailLocked() && SendDisabled() && OtpEntryShown() == !otpVerified
      ensures formData == old(formData) && otpVerified == old(otpVerified) && submitting == old(submitting)
      ensures pendingSubmits == old(pendingSubmits) && notices == old(notices)
    {
      otpSent := true;
      loading := false;
      pendingSends := pendingSends - 1;
    }

    /** The OTP input's change handler. */
    method OtpChange(raw: string)
      modifies this
      ensures formData == old(formData).(otp := SanitizeOtp(raw))
      ensures otpSent == old(otpSent) && otpVerified == old(otpVerified) && loading == old(loading) && submitting == old(submitting)
      ensures pendingSends == old(pendingSends) && pendingSubmits == old(pendingSubmits) && notices == old(notices)
    {
      formData := formData.(otp := SanitizeOtp(raw));
    }

    /** `handleVerifyOTP`: a six-character code verifies the email; anything else changes nothing. */
    method VerifyOtp()
      modifies this
      ensures otpVerified == (old(otpVerified) || |formData.otp| == 6)
      ensures !old(VerifyDisabled()) ==> !OtpEntryShown() && DetailsShown()
      ensures formData == old(formData) && otpSent == old(otpSent) && loading == old(loading) && submitting == old(submitting)
      ensures pendingSends == old(pendingSends) && pendingSubmits == old(pendingSubmits) && notices == old(notices)
    {
      if |formData.otp| == 6 {
        otpVerified := true;
      }
    }

    /** `handleInputChange` on one of the detail inputs. */
    method InputChange(field: DetailField, value: string)
      modifies this
      ensures formData == WithField(old(formData), field, value)
      ensures otpSent == old(otpSent) && otpVerified == old(otpVerified) && loading == old(loading) && submitting == old(submitting)
      ensures pendingSends == old(pendingSends) && pendingSubmits == old(pendingSubmits) && notices == old(notices)
    {
      formData := WithField(formData, field, value);
    }

    /** `handleSubmit`: nothing unless verified; otherwise mark submitting and start the timer over the current data. */
    method Submit()
      modifies this
      ensures !old(DetailsShown()) ==> submitting == old(submitting) && pendingSubmits == old(pendingSubmits)
      ensures old(DetailsShown()) ==> SubmitDisabled() && pendingSubmits == old(pendingSubmits) + [old(formData)]
      ensures formData == old(formData) && otpSent == old(otpSent) && otpVerified == old(otpVerified) && loading == old(loading)
      ensures pendingSends == old(pendingSends) && notices == old(notices)
    {
      if !otpVerified {
        return;
      }
      submitting := true;
      pendingSubmits := pendingSubmits + [formData];
    }

    /** The header's close button or the cancel button: `onClose` alone; the form keeps what was typed. */
    method Dismiss()
      modifies this
      ensures notices == old(notices) + [Closed]
      ensures formData == old(formData) && otpSent == old(otpSent) && otpVerified == old(otpVerified)
      ensures loading == old(loading) && submitting == old(submitting)
      ensures pendingSends == old(pendingSends) && pendingSubmits == old(pendingSubmits)
    {
      notices := notices + [Closed];
    }

    /**
      The oldest submit timer fires: `onSubmit` with the data it closed over, then every
      field emptied and both OTP flags cleared, then `onClose`.
    */
    method SubmitTimerFires()
      requires pendingSubmits != []
      modifies this
      ensures notices == old(notices) + [Submitted(old(pendingSubmits)[0]), Closed]
      ensures formData == EmptyForm && !otpSent && !otpVerified && !submitting
      ensures !EmailLocked() && !OtpEntryShown() && !DetailsShown() && !SubmitDisabled()
      ensures pendingSubmits == old(pendingSubmits)[1..]
      ensures loading == old(loading) && pendingSends == old(pendingSends)
    {
      var data := pendingSubmits[0];
      pendingSubmits := pendingSubmits[1..];
      notices := notices + [Submitted(data)];
      submitting := false;
      formData := EmptyForm;
      otpSent := false;
      otpVerified := false;
      notices := notices + [Closed];
    }
  }

  /**
    A whole pass through the form: type an email, send the code, type a code with stray
    characters, verify, fill in the name, submit and let both timers fire. The parent
    receives exactly the data on screen at submit time, then the close, and the form is
    back to its empty state.
  */
  method VerifiedSubmission(email: string, typed: string, name: string) returns (notices: seq<Notice>, after: FormData)
    requires email != ""
    requires |KeepDigits(typed)| >= 6
    ensures notices == [Submitted(FormData(email, KeepDigits(typed)[..6], name, "", "", "", "")), Closed]
    ensures after == EmptyForm
  {
    var form := new OtpFormModal();
    form.EmailChange(email);
    form.SendOtp();
    form.SendTimerFires();
    form.OtpChange(typed);
    form.VerifyOtp();
    form.InputChange(FullName, name);
    form.Submit();
    form.SubmitTimerFires();
    notices, after := form.notices, form.formData;
  }

  /**
    What the form shows at each step of a whole pass:
    - empty: only the email input is usable;
    - email typed: the send button is enabled;
    - sending: the send button is disabled while loading;
    - code sent: the email is locked and the OTP entry appears, verify disabled;
    - six digits typed: verify is enabled;
    - verified: the OTP entry gives way to the detail fields;
    - submitting: the submit button is disabled;
    - submitted: back to the empty form.
  */
  method ScreensAlongAPass(email: string, typed: string) returns (screens: seq<Guards>)
    requires email != ""
    requires |KeepDigits(typed)| >= 6
    ensures screens == [
      Guards(false, true, false, true, false, false),
      Guards(false, false, false, true, false, false),
      Guards(false, true, false, true, false, false),
      Guards(true, true, true, true, false, false),
      Guards(true, true, true, false, false, false),
      Guards(true, true, false, false, true, false),
      Guards(true, true, false, false, true, true),
      Guards(false, true, false, true, false, false)]
  {
    var form := new OtpFormModal();
    screens := [form.Screen()];
    form.EmailChange(email);
    screens := screens + [form.Screen()];
    form.SendOtp();
    screens := screens + [form.Screen()];
    form.SendTimerFires();
    screens := screens + [form.Screen()];
    form.OtpChange(typed);
    screens := screens + [form.Screen()];
    form.VerifyOtp();
    screens := screens + [form.Screen()];
    form.Submit();
    screens := screens + [form.Screen()];
    form.SubmitTimerFires();
    screens := screens + [form.Screen()];
  }

  /** Without a six-character code the form never reaches its parent: verify does nothing, and neither does submit. */
  method ShortCodeBlocksSubmit(email: string, typed: string) returns (notices: seq<Notice>, verified: bool)
    requires |KeepDigits(typed)| < 6
    ensures notices == [] && !verified
  {
    var form := new OtpFormModal();
    form.EmailChange(email);
    form.SendOtp();
    if form.pendingSends > 0 {
      form.SendTimerFires();
    }
    form.OtpChange(typed);
    form.VerifyOtp();
    form.Submit();
    notices, verified := form.notices, form.otpVerified;
  }
}
