/**
 * The contact form: its four fields, the error map that validation builds,
 * and the status that a submission steps through
 * (idle, submitting, success or error, then idle again). The HTTP result of
 * the one `fetch` and the firing of each 5-second timer are events supplied
 * by the caller.
 */
module Contact {
  import opened Js
  import Relay

  datatype Field = Name | Email | Subject | Message

  /** The `name` attribute of each input, which is also its key in the error map. */
  function Key(f: Field): string {
    match f
    case Name => "name"
    case Email => "email"
    case Subject => "subject"
    case Message => "message"
  }

  const FieldKeys: set<string> := {"name", "email", "subject", "message"}

  datatype FormState = FormState(name: string, email: string, subject: string, message: string) {

    function Get(f: Field): string {
      match f
      case Name => name
      case Email => email
      case Subject => subject
      case Message => message
    }

    /** `{ ...prev, [name]: value }`: the named field takes the value, the others keep theirs. */
    function With(f: Field, value: string): (r: FormState)
      ensures r.Get(f) == value
      ensures forall g :: g != f ==> r.Get(g) == Get(g)
    {
      match f
      case Name => this.(name := value)
      case Email => this.(email := value)
      case Subject => this.(subject := value)
      case Message => this.(message := value)
    }
  }

  const EmptyForm := FormState("", "", "", "")

  const NameRequired := "Name is required"
  const EmailRequired := "Email is required"
  const EmailInvalid := "Email is invalid"
  const SubjectRequired := "Subject is required"
  const MessageRequired := "Message is required"
  const ErrorMessages: set<string> := {NameRequired, EmailRequired, EmailInvalid, SubjectRequired, MessageRequired}

  /** The complaint validation records against one field, if any. */
  function Complaint(form: FormState, f: Field): Option<string> {
    match f
    case Name => if IsBlank(form.name) then Some(NameRequired) else None
    case Email =>
      if IsBlank(form.email) then Some(EmailRequired)
      else if !IsEmailShaped(form.email) then Some(EmailInvalid)
      else None
    case Subject => if IsBlank(form.subject) then Some(SubjectRequired) else None
    case Message => if IsBlank(form.message) then Some(MessageRequired) else None
  }

  /** The error map `validateForm` builds, one field at a time in the order of the form. */
  function FormErrors(form: FormState): (e: map<string, string>)
  {
    Record(Record(Record(Record(map[], "name", Complaint(form, Name)), "email", Complaint(form, Email)),
                  "subject", Complaint(form, Subject)), "message", Complaint(form, Message))
  }

  /** Adds a complaint, if there is one, under `key`. */
  function Record(e: map<string, string>, key: string, complaint: Option<string>): map<string, string> {
    if complaint.Some? then e[key := complaint.value] else e
  }

  /**
   * What the error map holds: keys among the four field names and messages
   * among the five; a blank field is "required"; an email that is not blank
   * but fails the pattern is "invalid"; nothing else is recorded.
   */
  lemma FormErrorsMeaning(form: FormState)
    ensures var e := FormErrors(form);
            && e.Keys <= FieldKeys
            && e.Values <= ErrorMessages
            && ("name" in e <==> IsBlank(form.name))
            && ("email" in e <==> IsBlank(form.email) || !IsEmailShaped(form.email))
            && ("subject" in e <==> IsBlank(form.subject))
            && ("message" in e <==> IsBlank(form.message))
            && ("name" in e ==> e["name"] == NameRequired)
            && ("email" in e ==> e["email"] == if IsBlank(form.email) then EmailRequired else EmailInvalid)
            && ("subject" in e ==> e["subject"] == SubjectRequired)
            && ("message" in e ==> e["message"] == MessageRequired)
  {
  }

  /** Validation passes exactly when no field is blank and the email has the `local@domain.tld` shape. */
  lemma FormAcceptedIff(form: FormState)
    ensures FormErrors(form) == map[] <==>
              && !IsBlank(form.name) && !IsBlank(form.email) && IsEmailShaped(form.email)
              && !IsBlank(form.subject) && !IsBlank(form.message)
  {
    FormErrorsMeaning(form);
    var e := FormErrors(form);
    if "name" !in e && "email" !in e && "subject" !in e && "message" !in e {
      assert e.Keys == {};
    }
  }

  /** A non-blank email with whitespace at either end is always reported as invalid, never as required. */
  lemma PaddedEmailIsInvalid(form: FormState)
    requires !IsBlank(form.email)
    requires IsSpace(form.email[0]) || IsSpace(form.email[|form.email| - 1])
    ensures "email" in FormErrors(form) && FormErrors(form)["email"] == EmailInvalid
  {
    PaddedEmailIsNotShaped(form.email);
    FormErrorsMeaning(form);
  }

  /**
   * The body of `validateForm` up to `setErrors`: a fresh map, filled one
   * field at a time, the email checked for blankness before its shape.
   */
  method CollectErrors(current: FormState) returns (newErrors: map<string, string>)
    ensures newErrors == FormErrors(current)
  {
    newErrors := map[];
    if IsBlank(current.name) {
      newErrors := newErrors["name" := NameRequired];
    }
    assert newErrors == Record(map[], "name", Complaint(current, Name));
    ghost var upToName := newErrors;
    if IsBlank(current.email) {
      newErrors := newErrors["email" := EmailRequired];
    } else if !IsEmailShaped(current.email) {
      newErrors := newErrors["email" := EmailInvalid];
    }
    assert newErrors == Record(upToName, "email", Complaint(current, Email));
    ghost var upToEmail := newErrors;
    if IsBlank(current.subject) {
      newErrors := newErrors["subject" := SubjectRequired];
    }
    assert newErrors == Record(upToEmail, "subject", Complaint(current, Subject));
    ghost var upToSubject := newErrors;
    if IsBlank(current.message) {
      newErrors := newErrors["message" := MessageRequired];
    }
    assert newErrors == Record(upToSubject, "message", Complaint(current, Message));
  }

  datatype Status = Idle | Submitting | Success | Error

  /** How the one `fetch` settled: a response with `ok`, a response without it, or a rejection. */
  datatype FetchResult = Ok | NotOk | Threw

  /** The component's state, with what the model tracks of its pending effects. */
  class ContactForm {
    var form: FormState
    var status: Status
    var errors: map<string, string>
    /** Requests posted whose result has not arrived yet. */
    var inFlight: nat
    /** 5-second timers set after a result and not yet fired. */
    var pendingResets: nat
    /** Every body handed to `fetch`, in order. */
    var posted: seq<FormState>

    ghost predicate Valid()
      reads this
    {
      && errors.Keys <= FieldKeys
      && errors.Values <= ErrorMessages
      && (status == Submitting ==> inFlight > 0)
    }

    /** The submit button's `disabled`: set while a submission is pending, so a request is then in flight. */
    predicate SubmitDisabled(): (disabled: bool)
      reads this
      ensures Valid() && disabled ==> inFlight > 0
    {
      status == Submitting
    }

    constructor ()
      ensures Valid()
      ensures form == EmptyForm && status == Idle && errors == map[]
      ensures inFlight == 0 && pendingResets == 0 && posted == []
    {
      form := EmptyForm;
      status := Idle;
      errors := map[];
      inFlight, pendingResets := 0, 0;
      posted := [];
    }

    /** `handleChange`: store the value and clear that field's error, touching nothing else. */
    method Change(f: Field, value: string)
      requires Valid()
      modifies this`form, this`errors
      ensures Valid()
      ensures form == old(form).With(f, value)
      ensures errors == old(errors) - {Key(f)}
    {
      form := form.With(f, value);
      assert Key(f) in errors ==> errors[Key(f)] in errors.Values;
      if Key(f) in errors && errors[Key(f)] != "" {
        errors := errors - {Key(f)};
      }
    }

    /** `validateForm`: replace the error map with the one built from the current fields, and report whether it is empty. */
    method Validate() returns (ok: bool)
      requires Valid()
      modifies this`errors
      ensures Valid()
      ensures errors == FormErrors(form)
      ensures ok <==> errors == map[]
    {
      errors := CollectErrors(form);
      FormErrorsMeaning(form);
      ok := |errors| == 0;
    }

    /**
     * `handleSubmit` up to the `fetch`: validate; when that passes, enter
     * submitting and post the fields exactly as they stand.
     */
    method Submit() returns (sent: bool)
      requires Valid() && !SubmitDisabled()
      modifies this`errors, this`status, this`inFlight, this`posted
      ensures Valid()
      ensures errors == FormErrors(form)
      ensures sent <==> FormErrors(form) == map[]
      ensures sent ==> status == Submitting && inFlight == old(inFlight) + 1 && posted == old(posted) + [form]
      ensures !sent ==> status == old(status) && inFlight == old(inFlight) && posted == old(posted)
    {
      sent := Validate();
      if sent {
        status := Submitting;
        inFlight := inFlight + 1;
        posted := posted + [form];
      }
    }

    /**
     * The rest of `handleSubmit` once the `fetch` settles: an ok response
     * means success and an empty form, anything else means error with the
     * fields kept; either way a timer is set to return to idle.
     */
    method Settle(result: FetchResult)
      requires Valid() && inFlight > 0
      modifies this`status, this`form, this`inFlight, this`pendingResets
      ensures Valid()
      ensures inFlight == old(inFlight) - 1 && pendingResets == old(pendingResets) + 1
      ensures result == Ok ==> status == Success && form == EmptyForm
      ensures result != Ok ==> status == Error && form == old(form)
    {
      inFlight := inFlight - 1;
      if result == Ok {
        status := Success;
        form := EmptyForm;
      } else {
        status := Error;
      }
      pendingResets := pendingResets + 1;
    }

    /** A 5-second timer fires and sets the status to idle, whatever it is by then. */
    method ResetTimerFires()
      requires Valid() && pendingResets > 0
      modifies this`status, this`pendingResets
      ensures Valid()
      ensures status == Idle && pendingResets == old(pendingResets) - 1
    {
      status := Idle;
      pendingResets := pendingResets - 1;
    }
  }

  /** The body `JSON.stringify(formState)` posts, as the relay's `req.json()` reads it back. */
  function RequestBody(form: FormState): Relay.Json {
    Relay.JObject(map["name" := Relay.JString(form.name), "email" := Relay.JString(form.email),
                      "subject" := Relay.JString(form.subject), "message" := Relay.JString(form.message)])
  }

  /**
   * Whatever the form accepts, the relay accepts too: it never answers 400,
   * and it hands the transport a mail that replies to the submitted email and
   * quotes the fields verbatim.
   */
  lemma AcceptedFormIsRelayed(form: FormState, operator: string, outcome: Relay.SendOutcome)
    requires FormErrors(form) == map[]
    ensures var x := Relay.Handle(Relay.Request("POST", Relay.Parsed(RequestBody(form))), operator, outcome);
            && x.response.status != 400
            && x.attempted.Some?
            && x.attempted.value.replyTo == Relay.JString(form.email)
            && x.attempted.value.subject == Relay.JString(form.subject)
            && x.attempted.value.from == Relay.SenderHeader(form.name, operator)
            && x.attempted.value.text == "From: " + form.name + " <" + form.email + ">\n\n" + form.message
  {
    FormAcceptedIff(form);
    Relay.NonEmptyStringsAreRelayed("POST", form.name, form.email, form.subject, form.message, operator, outcome);
  }
}
