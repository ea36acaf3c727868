/**
 * The contact form of `app/contact/contact-form.tsx`: its required-field
 * validator, the note added to the message from the page's context, the
 * rule that disables the submit button, and the component state that the
 * event handlers update.
 *
 * The captcha widget itself is not modelled. Its callbacks (solved,
 * failed, expired, script loaded) become methods that the widget calls.
 * The 800 ms wait inside the submit handler splits that handler in two:
 * `HandleSubmit` runs up to the wait, and `SubmitSettled` runs after it.
 */
module ContactFormModel {
  import opened Options
  import opened Text

  datatype Status = Idle | Submitting | Success | Error

  datatype FormState = FormState(
    name: string,
    email: string,
    phone: string,
    propertySold: string,
    estimatedClose: string,
    city: string,
    message: string)

  /** The keys of `FormState`. */
  datatype Field = Name | Email | Phone | PropertySold | EstimatedClose | City | Message

  /** `defaultState` */
  const DefaultState: FormState := FormState("", "", "", "", "", "", "")

  const CaptchaMissing: string := "Please complete the CAPTCHA challenge."
  const SendFailed: string := "We could not send that message. Please try again or call us."
  const CaptchaFailed: string := "Captcha failed. Please refresh and try again."

  /** `formState[field]` */
  function FieldValue(f: FormState, field: Field): string {
    match field
    case Name => f.name
    case Email => f.email
    case Phone => f.phone
    case PropertySold => f.propertySold
    case EstimatedClose => f.estimatedClose
    case City => f.city
    case Message => f.message
  }

  /** `{ ...f, [field]: value }` */
  function WithField(f: FormState, field: Field, value: string): (r: FormState)
    ensures FieldValue(r, field) == value
    ensures forall g :: g != field ==> FieldValue(r, g) == FieldValue(f, g)
  {
    match field
    case Name => f.(name := value)
    case Email => f.(email := value)
    case Phone => f.(phone := value)
    case PropertySold => f.(propertySold := value)
    case EstimatedClose => f.(estimatedClose := value)
    case City => f.(city := value)
    case Message => f.(message := value)
  }

  // ---------------------------------------------------------------- validation

  /** The required fields in the order they are checked, each with the message shown when it is blank. */
  const RequiredFields: seq<(Field, string)> := [
    (Name, "Please add your name."),
    (Email, "Please add a valid email."),
    (Phone, "Please add a phone number."),
    (PropertySold, "Tell us what property you sold."),
    (EstimatedClose, "Add your target closing date."),
    (City, "Share the city you are investing from."),
    (Message, "Add a brief message.")
  ]

  /** The message of the first blank field in `checks`, checked in order. */
  function FirstBlank(checks: seq<(Field, string)>, f: FormState): Option<string> {
    if checks == [] then None
    else if IsBlank(FieldValue(f, checks[0].0)) then Some(checks[0].1)
    else FirstBlank(checks[1..], f)
  }

  /**
   * `validate()`: the required fields are checked in the order of
   * `RequiredFields`, then the captcha token; the message of the first check
   * that fails is returned, or `None` (`null`) when all pass.
   */
  function Validate(f: FormState, captchaToken: string): Option<string> {
    match FirstBlank(RequiredFields, f)
    case Some(m) => Some(m)
    case None => if captchaToken == "" then Some(CaptchaMissing) else None
  }

  /** The answer is the message of the first blank field... */
  lemma {:induction false} FirstBlankAt(checks: seq<(Field, string)>, f: FormState, i: nat)
    requires i < |checks| && IsBlank(FieldValue(f, checks[i].0))
    requires forall j :: 0 <= j < i ==> !IsBlank(FieldValue(f, checks[j].0))
    ensures FirstBlank(checks, f) == Some(checks[i].1)
  {
    if i > 0 {
      assert !IsBlank(FieldValue(f, checks[0].0));
      assert checks[1..][i - 1] == checks[i];
      FirstBlankAt(checks[1..], f, i - 1);
    }
  }

  /** ...and `None` when no field is blank. */
  lemma {:induction false} FirstBlankNone(checks: seq<(Field, string)>, f: FormState)
    requires forall j :: 0 <= j < |checks| ==> !IsBlank(FieldValue(f, checks[j].0))
    ensures FirstBlank(checks, f) == None
  {
    if checks != [] {
      assert !IsBlank(FieldValue(f, checks[0].0));
      FirstBlankNone(checks[1..], f);
    }
  }

  /** A blank field in the table always makes the table answer. */
  lemma {:induction false} FirstBlankFindsBlank(checks: seq<(Field, string)>, f: FormState, j: nat)
    requires j < |checks| && IsBlank(FieldValue(f, checks[j].0))
    ensures FirstBlank(checks, f).Some?
  {
    if j > 0 && !IsBlank(FieldValue(f, checks[0].0)) {
      assert checks[1..][j - 1] == checks[j];
      FirstBlankFindsBlank(checks[1..], f, j - 1);
    }
  }

  /**
   * The validator answers with the message of the first blank required
   * field: a blank field is reported only when every field before it in the
   * table is filled in.
   */
  lemma ValidateFirstBlank(f: FormState, captchaToken: string, i: nat)
    requires i < |RequiredFields| && IsBlank(FieldValue(f, RequiredFields[i].0))
    requires forall j :: 0 <= j < i ==> !IsBlank(FieldValue(f, RequiredFields[j].0))
    ensures Validate(f, captchaToken) == Some(RequiredFields[i].1)
  {
    FirstBlankAt(RequiredFields, f, i);
  }

  /**
   * The captcha is checked last: with every field filled in, a missing token
   * is reported with the captcha message and nothing else.
   */
  lemma ValidateCaptchaLast(f: FormState, captchaToken: string)
    requires forall field :: !IsBlank(FieldValue(f, field))
    ensures Validate(f, captchaToken) == if captchaToken == "" then Some(CaptchaMissing) else None
  {
    FirstBlankNone(RequiredFields, f);
  }

  /** Every required field has its place in the table. */
  lemma RequiredFieldsCoverForm(field: Field) returns (i: nat)
    ensures i < |RequiredFields| && RequiredFields[i].0 == field
  {
    match field
    case Name => i := 0;
    case Email => i := 1;
    case Phone => i := 2;
    case PropertySold => i := 3;
    case EstimatedClose => i := 4;
    case City => i := 5;
    case Message => i := 6;
  }

  /** Every message the validator gives is a field's message or the captcha message. */
  lemma ValidateMessage(f: FormState, captchaToken: string)
    ensures Validate(f, captchaToken).Some? ==>
      Validate(f, captchaToken).value in MessagesOf(RequiredFields) + [CaptchaMissing]
  {
    FirstBlankIsMessage(RequiredFields, f);
  }

  /** The messages of a table of checks. */
  function MessagesOf(checks: seq<(Field, string)>): (ms: seq<string>)
    ensures |ms| == |checks| && forall i :: 0 <= i < |checks| ==> ms[i] == checks[i].1
  {
    seq(|checks|, i requires 0 <= i < |checks| => checks[i].1)
  }

  /** The form is accepted exactly when no field is blank and the captcha has a token. */
  lemma ValidateAcceptsIff(f: FormState, captchaToken: string)
    ensures Validate(f, captchaToken).None? <==>
      (forall field :: !IsBlank(FieldValue(f, field))) && captchaToken != ""
  {
    if forall field :: !IsBlank(FieldValue(f, field)) {
      FirstBlankNone(RequiredFields, f);
    } else {
      var field :| IsBlank(FieldValue(f, field));
      var i := RequiredFieldsCoverForm(field);
      FirstBlankFindsBlank(RequiredFields, f, i);
    }
  }

  /** A field holding only white space counts as missing. */
  lemma WhiteSpaceIsMissing(f: FormState, captchaToken: string, field: Field, ws: string)
    requires AllWhiteSpace(ws)
    ensures Validate(WithField(f, field, ws), captchaToken).Some?
  {
    BlankIffAllWhiteSpace(ws);
    ValidateAcceptsIff(WithField(f, field, ws), captchaToken);
  }

  /** Tables of checks answer alike for two forms whose fields are blank alike. */
  lemma {:induction false} FirstBlankAgree(checks: seq<(Field, string)>, f: FormState, g: FormState)
    requires forall field :: IsBlank(FieldValue(f, field)) == IsBlank(FieldValue(g, field))
    ensures FirstBlank(checks, f) == FirstBlank(checks, g)
  {
    if checks != [] {
      FirstBlankAgree(checks[1..], f, g);
    }
  }

  /** The email is only checked for being present: any two non-blank addresses fare the same. */
  lemma EmailFormatUnchecked(f: FormState, captchaToken: string, e1: string, e2: string)
    requires !IsBlank(e1) && !IsBlank(e2)
    ensures Validate(f.(email := e1), captchaToken) == Validate(f.(email := e2), captchaToken)
  {
    var g1, g2 := f.(email := e1), f.(email := e2);
    forall field ensures IsBlank(FieldValue(g1, field)) == IsBlank(FieldValue(g2, field)) {
    }
    FirstBlankAgree(RequiredFields, g1, g2);
  }

  /** A freshly reset form fails on its first check. */
  lemma DefaultStateRejected(captchaToken: string)
    ensures Validate(DefaultState, captchaToken) == Some("Please add your name.")
  {
    BlankIffAllWhiteSpace("");
    ValidateFirstBlank(DefaultState, captchaToken, 0);
  }

  // ---------------------------------------------------------------- contextual note

  /** `projectTypeFromParams || prefillProjectType` */
  function ContextualNote(fromParams: Option<string>, prefill: Option<string>): (r: Option<string>)
    ensures fromParams.Some? && fromParams.value != "" ==> r == fromParams
    ensures fromParams.None? || fromParams.value == "" ==> r == prefill
  {
    if fromParams.Some? && fromParams.value != "" then fromParams else prefill
  }

  const FocusLabel: string := "Requested focus: "

  /**
   * The message after the note is added: the old message, a blank line when
   * the old message is not empty, then the labelled note.
   */
  function WithNote(message: string, note: string): (r: string)
    ensures StartsWith(r, message)
    ensures message != "" ==> |r| == |message| + 2 + |FocusLabel + note| && r[|message|..|message| + 2] == "\n\n"
    ensures message == "" ==> |r| == |FocusLabel + note|
    ensures r[|r| - |FocusLabel + note|..] == FocusLabel + note
  {
    var labelled := FocusLabel + note;
    if message != "" then
      var r := message + "\n\n" + labelled;
      assert r == message + ("\n\n" + labelled);
      assert r[..|message|] == message;
      assert r[|message|..|message| + 2] == "\n\n";
      assert r[|r| - |labelled|..] == labelled;
      r
    else
      labelled
  }

  /** After a note is added the message is never blank, so the message check passes. */
  lemma WithNoteNotBlank(message: string, note: string)
    ensures !IsBlank(WithNote(message, note))
  {
    var r := WithNote(message, note);
    var k := |r| - |FocusLabel + note|;
    assert r[k] == 'R';
    BlankIffAllWhiteSpace(r);
  }

  // ---------------------------------------------------------------- submit button

  /** The submit button's `disabled` attribute. */
  predicate SubmitDisabled(status: Status, captchaToken: string, siteKeyMissing: bool, captchaReady: bool) {
    status == Submitting || captchaToken == "" || siteKeyMissing || !captchaReady
  }

  /** While the button is enabled the captcha check passes: any message comes from a blank field. */
  lemma EnabledButtonHasToken(f: FormState, status: Status, captchaToken: string, siteKeyMissing: bool,
                              captchaReady: bool)
    requires !SubmitDisabled(status, captchaToken, siteKeyMissing, captchaReady)
    ensures Validate(f, captchaToken) == FirstBlank(RequiredFields, f)
  {
  }

  // ---------------------------------------------------------------- component state

  /** The state of one mounted form. */
  class ContactForm {
    var formState: FormState
    var status: Status
    var error: Option<string>
    var captchaToken: string
    var captchaReady: bool
    var captchaError: Option<string>
    const siteKey: Option<string>

    /** Every error shown is a validation message or the send failure, and every captcha error is the widget failure. */
    predicate Valid()
      reads this
    {
      (error.None? || error.value in MessagesOf(RequiredFields) + [CaptchaMissing, SendFailed]) &&
      (captchaError.None? || captchaError.value == CaptchaFailed)
    }

    /** `!TURNSTILE_SITE_KEY` */
    predicate SiteKeyMissing()
      reads this
    {
      siteKey.None? || siteKey.value == ""
    }

    /** The submit button is disabled. */
    predicate Disabled()
      reads this
    {
      SubmitDisabled(status, captchaToken, SiteKeyMissing(), captchaReady)
    }

    /**
     * The first render: the default form, idle, no errors, no token; the
     * captcha is ready at once when its script was already loaded.
     */
    constructor(siteKey: Option<string>, scriptLoaded: bool)
      ensures Valid()
      ensures this.siteKey == siteKey
      ensures formState == DefaultState && status == Idle && error == None
      ensures captchaToken == "" && captchaReady == scriptLoaded && captchaError == None
    {
      this.siteKey := siteKey;
      formState := DefaultState;
      status := Idle;
      error := None;
      captchaToken := "";
      captchaReady := scriptLoaded;
      captchaError := None;
    }

    /** `handleChange(field)`: one field takes the typed value; nothing else changes. */
    method HandleChange(field: Field, value: string)
      requires Valid()
      modifies this
      ensures Valid()
      ensures formState == WithField(old(formState), field, value)
      ensures status == old(status) && error == old(error) && captchaToken == old(captchaToken)
      ensures captchaReady == old(captchaReady) && captchaError == old(captchaError)
    {
      formState := WithField(formState, field, value);
    }

    /** The contextual-note effect: a truthy note is added to the message; nothing else changes. */
    method ApplyContextualNote(fromParams: Option<string>, prefill: Option<string>)
      requires Valid()
      modifies this
      ensures Valid()
      ensures var note := ContextualNote(fromParams, prefill);
        if note.Some? && note.value != "" then
          formState == old(formState).(message := WithNote(old(formState).message, note.value))
        else
          formState == old(formState)
      ensures status == old(status) && error == old(error) && captchaToken == old(captchaToken)
      ensures captchaReady == old(captchaReady) && captchaError == old(captchaError)
    {
      var note := ContextualNote(fromParams, prefill);
      if note.Some? && note.value != "" {
        formState := formState.(message := WithNote(formState.message, note.value));
      }
    }

    /** `resetCaptcha()`: the token is cleared (the widget reset itself is not modelled). */
    method ResetCaptcha()
      requires Valid()
      modifies this
      ensures Valid()
      ensures captchaToken == ""
      ensures formState == old(formState) && status == old(status) && error == old(error)
      ensures captchaReady == old(captchaReady) && captchaError == old(captchaError)
    {
      captchaToken := "";
    }

    /**
     * `handleSubmit` up to the wait. Both errors are cleared. A failed
     * check shows its message and stops, with the status and the form
     * untouched. Otherwise the form is sending, and `sent` is true.
     */
    method HandleSubmit() returns (sent: bool)
      requires Valid()
      modifies this
      ensures Valid()
      ensures var v := Validate(old(formState), old(captchaToken));
        && sent == v.None?
        && error == v
        && status == (if sent then Submitting else old(status))
      ensures captchaError == None
      ensures formState == old(formState) && captchaToken == old(captchaToken) && captchaReady == old(captchaReady)
    {
      error := None;
      captchaError := None;
      var validationError := Validate(formState, captchaToken);
      ValidateMessage(formState, captchaToken);
      if validationError.Some? {
        error := validationError;
        return false;
      }
      status := Submitting;
      return true;
    }

    /**
     * `handleSubmit` after the wait. On success the form is reset and the
     * status is `Success`; if the wait was rejected the status is `Error`
     * with the send-failure message. The captcha token is cleared either way.
     */
    method SubmitSettled(rejected: bool)
      requires Valid()
      modifies this
      ensures Valid()
      ensures captchaToken == ""
      ensures !rejected ==> status == Success && formState == DefaultState && error == old(error)
      ensures rejected ==> status == Error && formState == old(formState) && error == Some(SendFailed)
      ensures captchaReady == old(captchaReady) && captchaError == old(captchaError)
    {
      if !rejected {
        status := Success;
        formState := DefaultState;
      } else {
        status := Error;
        error := Some(SendFailed);
      }
      ResetCaptcha();
    }

    /** The widget's success callback: the token is stored and the captcha error cleared. */
    method OnCaptchaSolved(token: string)
      requires Valid()
      modifies this
      ensures Valid()
      ensures captchaToken == token && captchaError == None
      ensures formState == old(formState) && status == old(status) && error == old(error)
      ensures captchaReady == old(captchaReady)
    {
      captchaToken := token;
      captchaError := None;
    }

    /** The widget's error callback. */
    method OnCaptchaError()
      requires Valid()
      modifies this
      ensures Valid()
      ensures captchaError == Some(CaptchaFailed)
      ensures formState == old(formState) && status == old(status) && error == old(error)
      ensures captchaToken == old(captchaToken) && captchaReady == old(captchaReady)
    {
      captchaError := Some(CaptchaFailed);
    }

    /** The widget's expiry callback: the token is cleared. */
    method OnCaptchaExpired()
      requires Valid()
      modifies this
      ensures Valid()
      ensures captchaToken == ""
      ensures formState == old(formState) && status == old(status) && error == old(error)
      ensures captchaReady == old(captchaReady) && captchaError == old(captchaError)
    {
      captchaToken := "";
    }

    /** The script's load callback: the captcha becomes ready. */
    method OnScriptLoaded()
      requires Valid()
      modifies this
      ensures Valid()
      ensures captchaReady
      ensures formState == old(formState) && status == old(status) && error == old(error)
      ensures captchaToken == old(captchaToken) && captchaError == old(captchaError)
    {
      captchaReady := true;
    }
  }

  /** A message the field table gives is one of its messages. */
  lemma {:induction false} FirstBlankIsMessage(checks: seq<(Field, string)>, f: FormState)
    ensures FirstBlank(checks, f).Some? ==> exists i :: 0 <= i < |checks| && checks[i].1 == FirstBlank(checks, f).value
  {
    if checks != [] && !IsBlank(FieldValue(f, checks[0].0)) {
      FirstBlankIsMessage(checks[1..], f);
      if FirstBlank(checks[1..], f).Some? {
        var i :| 0 <= i < |checks[1..]| && checks[1..][i].1 == FirstBlank(checks[1..], f).value;
        assert checks[i + 1].1 == FirstBlank(checks, f).value;
      }
    } else if checks != [] {
      assert checks[0].1 == FirstBlank(checks, f).value;
    }
  }
}
