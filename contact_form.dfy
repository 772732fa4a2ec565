/**
  The client-side contact form: its schema with one human-readable message per
  field, its default values, the service options it offers, and the submit
  state machine (the `isSubmitting` flag, one request per submit, reset on
  success, values kept on failure).

  The request itself is answered by `Routes.Handle`; whether it reaches the
  server at all is the parameter `delivered`, and a fault inside the server's
  handler the parameter `serverFault`.
 */
module ContactForm {
  import opened Wrappers
  import opened Submission
  import Routes

  /** The form's values: each field holds a string or is `undefined`. */
  datatype FormValues = FormValues(
    firstName: Option<string>, lastName: Option<string>, email: Option<string>,
    company: Option<string>, service: Option<string>, message: Option<string>)
  {
    function Get(f: FieldName): Option<string>
    {
      match f
      case FirstName => firstName
      case LastName => lastName
      case Email => email
      case Company => company
      case Service => service
      case Message => message
    }
  }

  /** Every field starts out as the empty string. */
  const DefaultValues := FormValues(Some(""), Some(""), Some(""), Some(""), Some(""), Some(""))

  /** The identifiers of the four entries of the service drop-down. */
  const ServiceOptions: set<string> := {"workflow-automation", "enterprise-solutions", "chatbots", "other"}

  const RequiredText := "Required"
  const FirstNameText := "First name must be at least 2 characters."
  const LastNameText := "Last name must be at least 2 characters."
  const EmailText := "Please enter a valid email address."
  const ServiceText := "Please select a service."
  const MessageText := "Message must be at least 10 characters."

  /** `z.string().min(min, { message })` on one field: the message shown, if any. */
  function MinLengthMessage(e: Option<string>, min: nat, text: string): (r: Option<string>)
    ensures r.None? <==> e.Some? && |e.value| >= min
    ensures r.Some? ==> r.value == if e.None? then RequiredText else text
  {
    match e
    case None => Some(RequiredText)
    case Some(s) => if |s| < min then Some(text) else None
  }

  /** The message `formSchema` shows under field `f` holding `e`, if the field is invalid. */
  function FieldMessage(f: FieldName, e: Option<string>, isEmail: string -> bool): (r: Option<string>)
    // the form flags a field exactly when the server's schema rejects the same value
    ensures r.Some? <==> Routes.Rule(f, ToValue(e), isEmail).Some?
    // an `undefined` field reads "Required", except the service, which asks for a selection
    ensures e.None? && r.Some? ==> r.value == if f == Service then ServiceText else RequiredText
  {
    match f
    case FirstName => MinLengthMessage(e, 2, FirstNameText)
    case LastName => MinLengthMessage(e, 2, LastNameText)
    case Email =>
      (match e
       case None => Some(RequiredText)
       case Some(s) => if isEmail(s) then None else Some(EmailText))
    case Company => None
    case Service => if e.None? then Some(ServiceText) else None
    case Message => MinLengthMessage(e, 10, MessageText)
  }

  /** The error messages of the form: one entry per invalid field. */
  function Errors(v: FormValues, isEmail: string -> bool): (errs: map<FieldName, string>)
    // the flagged fields are exactly those the server's schema would list
    ensures forall f :: f in errs <==> Routes.Rule(f, ToValue(v.Get(f)), isEmail).Some?
    // the fixed message of each field
    ensures forall f :: f in errs && v.Get(f).None? ==> errs[f] == if f == Service then ServiceText else RequiredText
    ensures v.firstName.Some? && FirstName in errs ==> errs[FirstName] == FirstNameText
    ensures v.lastName.Some? && LastName in errs ==> errs[LastName] == LastNameText
    ensures v.email.Some? && Email in errs ==> errs[Email] == EmailText
    ensures v.message.Some? && Message in errs ==> errs[Message] == MessageText
  {
    map f: FieldName | FieldMessage(f, v.Get(f), isEmail).Some? :: FieldMessage(f, v.Get(f), isEmail).value
  }

  /** How a value of the form is written into the JSON request (an `undefined` key is dropped). */
  function ToValue(e: Option<string>): Value
  {
    match e
    case None => Missing
    case Some(s) => Text(s)
  }

  /** The request body sent to `/api/contact` for the values `v`. */
  function ToBody(v: FormValues): (b: Body)
    ensures b.Fields? && forall f :: b.Get(f) == ToValue(v.Get(f))
    // the form only ever sends strings, so the server never answers it with a type error
    ensures forall f :: !b.Get(f).NonString?
  {
    Fields(ToValue(v.firstName), ToValue(v.lastName), ToValue(v.email),
           ToValue(v.company), ToValue(v.service), ToValue(v.message))
  }

  /** Distinct values give distinct request bodies: nothing the user typed is lost on the way. */
  lemma ToBodyInjective(v: FormValues, w: FormValues)
    requires ToBody(v) == ToBody(w)
    ensures v == w
  {
  }

  /**
    The two schemas agree: the form flags exactly the keys the server would
    list in its `errors`, so every payload the form lets through is accepted
    by the server, and the other way round.
   */
  lemma ClientAgreesWithServer(v: FormValues, isEmail: string -> bool)
    ensures forall f :: f in Errors(v, isEmail) <==> exists i :: i in Routes.Issues(ToBody(v), isEmail) && i.path == [f]
    ensures Errors(v, isEmail) == map[] <==> Routes.Valid(ToBody(v), isEmail)
  {
    var b := ToBody(v);
    forall f ensures f in Errors(v, isEmail) <==> exists i :: i in Routes.Issues(b, isEmail) && i.path == [f] {
      Routes.IssuesNameFailingFields(b, isEmail, f);
      if f in Errors(v, isEmail) {
        assert Routes.Issue([f], Routes.Rule(f, b.Get(f), isEmail).value) in Routes.Issues(b, isEmail);
      }
    }
    Routes.IssuesEmptyIffValid(b, isEmail);
    if Errors(v, isEmail) != map[] {
      var f :| f in Errors(v, isEmail);
      assert exists i :: i in Routes.Issues(b, isEmail) && i.path == [f];
    } else {
      forall f: FieldName ensures Routes.Rule(f, b.Get(f), isEmail).None? {
        assert f !in Errors(v, isEmail);
      }
      Routes.ValidIffRulesPass(b, isEmail);
    }
  }

  /**
    The untouched form is flagged on the names, the email and the message;
    the empty service it starts with passes, because the schema only insists
    that the service is a string.
   */
  lemma DefaultsInvalid(isEmail: string -> bool)
    requires !isEmail("")
    ensures Errors(DefaultValues, isEmail).Keys == {FirstName, LastName, Email, Message}
  {
    var errs := Errors(DefaultValues, isEmail);
    assert FirstName in errs && LastName in errs && Email in errs && Message in errs;
    assert Company !in errs && Service !in errs;
  }

  /** Each offered service passes both schemas' service rule. */
  lemma ServiceOptionsAccepted(s: string, isEmail: string -> bool)
    requires s in ServiceOptions
    ensures FieldMessage(Service, Some(s), isEmail).None?
    ensures Routes.Rule(Service, Text(s), isEmail).None?
  {
  }

  /** The notifications the form raises after a request. */
  datatype Toast = Toast(title: string, description: string, destructive: bool)

  const SentToast := Toast("Message sent!", "Thank you for contacting us. We'll get back to you soon.", false)
  const FailedToast := Toast("Error sending message", "Please try again later or contact us directly via email.", true)

  /** `apiRequest` treats a 2xx answer as success and anything else, or no answer, as failure. */
  function RequestSucceeds(v: FormValues, isEmail: string -> bool, delivered: bool, serverFault: bool): (ok: bool)
    ensures Errors(v, isEmail) == map[] ==> (ok <==> delivered && !serverFault)
    ensures Errors(v, isEmail) != map[] ==> !ok
  {
    ClientAgreesWithServer(v, isEmail);
    delivered && 200 <= Routes.Handle(ToBody(v), isEmail, serverFault).status < 300
  }

  /** The state of the form component: its values, the flags it renders and what it has sent. */
  class Form {
    var values: FormValues
    var errors: map<FieldName, string>
    var isSubmitting: bool
    var toast: Option<Toast>
    /** The requests issued to `/api/contact`, oldest first. */
    var sent: seq<FormValues>

    constructor ()
      ensures values == DefaultValues && errors == map[] && !isSubmitting && toast.None? && sent == []
    {
      values := DefaultValues;
      errors := map[];
      isSubmitting := false;
      toast := None;
      sent := [];
    }

    /** The user types `s` into field `f`. */
    method Edit(f: FieldName, s: string)
      modifies this
      ensures values.Get(f) == Some(s)
      ensures forall g :: g != f ==> values.Get(g) == old(values).Get(g)
      ensures errors == old(errors) && isSubmitting == old(isSubmitting) && toast == old(toast) && sent == old(sent)
    {
      match f
      case FirstName => values := values.(firstName := Some(s));
      case LastName => values := values.(lastName := Some(s));
      case Email => values := values.(email := Some(s));
      case Company => values := values.(company := Some(s));
      case Service => values := values.(service := Some(s));
      case Message => values := values.(message := Some(s));
    }

    /** First half of `onSubmit`: raise the flag and issue exactly one request. */
    method BeginSubmit(data: FormValues)
      modifies this
      ensures isSubmitting && sent == old(sent) + [data]
      ensures values == old(values) && errors == old(errors) && toast == old(toast)
    {
      isSubmitting := true;
      sent := sent + [data];
    }

    /** Second half of `onSubmit`, when the request settles: notify, reset on success, lower the flag. */
    method FinishSubmit(ok: bool)
      modifies this
      ensures !isSubmitting && sent == old(sent)
      ensures ok ==> values == DefaultValues && errors == map[] && toast == Some(SentToast)
      ensures !ok ==> values == old(values) && errors == old(errors) && toast == Some(FailedToast)
    {
      if ok {
        toast := Some(SentToast);
        values := DefaultValues;
        errors := map[];
      } else {
        toast := Some(FailedToast);
      }
      isSubmitting := false;
    }

    /**
      Pressing "Send Message": the schema runs first; an invalid form only
      shows its messages, a valid one runs `onSubmit` once.
     */
    method Submit(isEmail: string -> bool, delivered: bool, serverFault: bool) returns (submitted: bool)
      modifies this
      ensures submitted <==> Errors(old(values), isEmail) == map[]
      ensures !submitted ==>
        && errors == Errors(old(values), isEmail) && values == old(values)
        && sent == old(sent) && isSubmitting == old(isSubmitting) && toast == old(toast)
      ensures submitted ==> sent == old(sent) + [old(values)] && !isSubmitting
      ensures submitted && delivered && !serverFault ==>
        values == DefaultValues && errors == map[] && toast == Some(SentToast)
      ensures submitted && !(delivered && !serverFault) ==>
        values == old(values) && errors == map[] && toast == Some(FailedToast)
    {
      var errs := Errors(values, isEmail);
      if errs != map[] {
        errors := errs;
        return false;
      }
      errors := map[];
      var data := values;
      BeginSubmit(data);
      FinishSubmit(RequestSucceeds(data, isEmail, delivered, serverFault));
      submitted := true;
    }
  }
}
