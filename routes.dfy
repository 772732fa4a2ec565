/**
  The `/api/contact` endpoint: the server's `contactFormSchema` and the
  handler that validates a request body and answers with one of three
  responses. The handler keeps no state, so it is a function of its inputs.

  Email syntax is decided by the validation library; the model takes it as
  the parameter `isEmail`. The parameter `fault` stands for an exception
  raised inside the handler's `try` block after the schema has accepted the
  body (the logging step), which the handler turns into a 500.
 */
module Routes {
  import opened Wrappers
  import opened Submission

  /** The kinds of schema violation the handler can report. */
  datatype IssueCode =
    | Required         // the key is absent (zod's invalid_type with nothing received)
    | InvalidType      // the key holds a value that is not a string, or the body is not an object
    | TooSmall(minimum: nat)
    | InvalidEmail

  /** One entry of the `errors` list: where the violation is and what it is. */
  datatype Issue = Issue(path: seq<FieldName>, code: IssueCode)

  /** The JSON body of a response; `errors` is present only on a validation failure. */
  datatype ResponseBody = ResponseBody(success: bool, message: string, errors: Option<seq<Issue>>)

  datatype Response = Response(status: nat, body: ResponseBody)

  const SuccessMessage := "Thank you for contacting us. We'll get back to you soon."
  const InvalidMessage := "Invalid form data"
  const FailureMessage := "An error occurred processing your request. Please try again later."

  const NameMin: nat := 2
  const MessageMin: nat := 10

  /** `z.string().min(min)` applied to one value. */
  function MinLength(v: Value, min: nat): (r: Option<IssueCode>)
    ensures r.None? <==> v.Text? && |v.s| >= min
    ensures r.Some? && v.Text? ==> r == Some(TooSmall(min))
  {
    match v
    case Missing => Some(Required)
    case NonString => Some(InvalidType)
    case Text(s) => if |s| < min then Some(TooSmall(min)) else None
  }

  /** The violation, if any, that the schema reports for the value under key `f`. */
  function Rule(f: FieldName, v: Value, isEmail: string -> bool): (r: Option<IssueCode>)
    // a value that is present but not a string is rejected under every key, and it is the
    // only value rejected as a type error
    ensures r == Some(InvalidType) <==> v.NonString?
    // every key but company is required, and an absent key is reported as required
    ensures v.Missing? ==> (r.None? <==> f == Company)
    ensures r == Some(Required) <==> v.Missing? && f != Company
    // the company and the service accept every string
    ensures v.Text? && f in {Company, Service} ==> r.None?
    // a string passes under the names and the message exactly when it is long enough,
    // and under the email exactly when the email check accepts it
    ensures v.Text? && f in {FirstName, LastName} ==> (r.None? <==> |v.s| >= NameMin)
    ensures v.Text? && f == Message ==> (r.None? <==> |v.s| >= MessageMin)
    ensures v.Text? && f == Email ==> (r.None? <==> isEmail(v.s))
    // only the email key is checked for syntax, and only the names and the message for length
    ensures r == Some(InvalidEmail) ==> f == Email
    ensures r.Some? && r.value.TooSmall? ==>
      if f == Message then r.value.minimum == MessageMin else f in {FirstName, LastName} && r.value.minimum == NameMin
  {
    match f
    case FirstName => MinLength(v, NameMin)
    case LastName => MinLength(v, NameMin)
    case Email =>
      (match v
       case Missing => Some(Required)
       case NonString => Some(InvalidType)
       case Text(s) => if isEmail(s) then None else Some(InvalidEmail))
    case Company => if v.NonString? then Some(InvalidType) else None
    case Service =>
      (match v
       case Missing => Some(Required)
       case NonString => Some(InvalidType)
       case Text(_) => None)
    case Message => MinLength(v, MessageMin)
  }

  /**
    The constraints of the ContactSubmission record, stated field by field:
    names of at least two characters, a syntactically valid email, an
    optional company, a service that is any string, and a message of at least
    ten characters.
   */
  predicate Valid(b: Body, isEmail: string -> bool)
    // a valid body is an object holding a string under every key but company
    ensures Valid(b, isEmail) ==> b.Fields? && forall f :: f != Company ==> b.Get(f).Text?
  {
    && b.Fields?
    && b.firstName.Text? && |b.firstName.s| >= 2
    && b.lastName.Text? && |b.lastName.s| >= 2
    && b.email.Text? && isEmail(b.email.s)
    && (b.company.Missing? || b.company.Text?)
    && b.service.Text?
    && b.message.Text? && |b.message.s| >= 10
  }

  /** The keys of `fields` appear in the order of the schema, each at most once. */
  predicate InShapeOrder(fields: seq<FieldName>)
  {
    forall j, k :: 0 <= j < k < |fields| ==> Position(fields[j]) < Position(fields[k])
  }

  /** The schema's own key list is in order, with every key once. */
  lemma ShapeInOrder()
    ensures InShapeOrder(Shape)
  {
    forall j | 0 <= j < |Shape|
      ensures Position(Shape[j]) == j
    {
    }
  }

  /** The issues for the keys in `fields`, in that order. */
  function FieldIssues(b: Body, fields: seq<FieldName>, isEmail: string -> bool): (r: seq<Issue>)
    requires b.Fields?
    ensures forall k :: 0 <= k < |r| ==>
      |r[k].path| == 1 && r[k].path[0] in fields && Rule(r[k].path[0], b.Get(r[k].path[0]), isEmail) == Some(r[k].code)
    ensures forall f :: f in fields && Rule(f, b.Get(f), isEmail).Some? ==>
      Issue([f], Rule(f, b.Get(f), isEmail).value) in r
  {
    if fields == [] then []
    else
      var here := match Rule(fields[0], b.Get(fields[0]), isEmail)
                  case None => []
                  case Some(c) => [Issue([fields[0]], c)];
      here + FieldIssues(b, fields[1..], isEmail)
  }

  /** Each issue names one key, and the keys follow the schema's order, each at most once. */
  predicate IssuesInOrder(r: seq<Issue>)
  {
    && (forall k :: 0 <= k < |r| ==> |r[k].path| == 1)
    && (forall j, k :: 0 <= j < k < |r| && |r[j].path| == 1 && |r[k].path| == 1 ==>
          Position(r[j].path[0]) < Position(r[k].path[0]))
  }

  /** The first key of an ordered key list comes before all the others. */
  lemma HeadComesFirst(fields: seq<FieldName>, g: FieldName)
    requires InShapeOrder(fields) && |fields| > 0 && g in fields[1..]
    ensures Position(fields[0]) < Position(g)
  {
    var m :| 0 <= m < |fields[1..]| && fields[1..][m] == g;
    assert fields[m + 1] == g;
  }

  /** An issue whose key comes before every key of an ordered list can be put in front of it. */
  lemma ConsInOrder(x: Issue, rest: seq<Issue>)
    requires IssuesInOrder(rest) && |x.path| == 1
    requires forall k :: 0 <= k < |rest| ==> Position(x.path[0]) < Position(rest[k].path[0])
    ensures IssuesInOrder([x] + rest)
  {
    var r := [x] + rest;
    forall j, k | 0 <= j < k < |r| ensures Position(r[j].path[0]) < Position(r[k].path[0]) {
      assert r[k] == rest[k - 1];
      if j > 0 {
        assert r[j] == rest[j - 1];
      }
    }
  }

  /** Issues for keys taken in schema order come out in schema order, at most one per key. */
  lemma {:induction false} FieldIssuesInOrder(b: Body, fields: seq<FieldName>, isEmail: string -> bool)
    requires b.Fields? && InShapeOrder(fields)
    ensures IssuesInOrder(FieldIssues(b, fields, isEmail))
  {
    if fields != [] {
      var tail := fields[1..];
      var rest := FieldIssues(b, tail, isEmail);
      assert InShapeOrder(tail) by {
        forall j, k | 0 <= j < k < |tail| ensures Position(tail[j]) < Position(tail[k]) {
          assert tail[j] == fields[j + 1] && tail[k] == fields[k + 1];
        }
      }
      FieldIssuesInOrder(b, tail, isEmail);
      match Rule(fields[0], b.Get(fields[0]), isEmail)
      case None =>
        assert FieldIssues(b, fields, isEmail) == rest;
      case Some(c) =>
        var x := Issue([fields[0]], c);
        assert FieldIssues(b, fields, isEmail) == [x] + rest;
        forall k | 0 <= k < |rest| ensures Position(fields[0]) < Position(rest[k].path[0]) {
          HeadComesFirst(fields, rest[k].path[0]);
        }
        ConsInOrder(x, rest);
    }
  }

  /** The `errors` list of a failed `contactFormSchema.parse`; empty when the parse succeeds. */
  function Issues(b: Body, isEmail: string -> bool): (r: seq<Issue>)
    ensures b.NonObject? ==> r == [Issue([], InvalidType)]
    // for an object: one issue per failing key, each naming that key, in the schema's key order
    ensures b.Fields? ==> forall k :: 0 <= k < |r| ==>
      |r[k].path| == 1 && Rule(r[k].path[0], b.Get(r[k].path[0]), isEmail) == Some(r[k].code)
    ensures b.Fields? ==> IssuesInOrder(r)
  {
    if b.NonObject? then [Issue([], InvalidType)]
    else
      ShapeInOrder();
      FieldIssuesInOrder(b, Shape, isEmail);
      FieldIssues(b, Shape, isEmail)
  }

  /** An object body is valid exactly when every key passes its rule. */
  lemma ValidIffRulesPass(b: Body, isEmail: string -> bool)
    requires b.Fields?
    ensures Valid(b, isEmail) <==> forall f: FieldName :: Rule(f, b.Get(f), isEmail).None?
  {
    if forall f: FieldName :: Rule(f, b.Get(f), isEmail).None? {
      assert Rule(FirstName, b.Get(FirstName), isEmail).None?;
      assert Rule(LastName, b.Get(LastName), isEmail).None?;
      assert Rule(Email, b.Get(Email), isEmail).None?;
      assert Rule(Company, b.Get(Company), isEmail).None?;
      assert Rule(Service, b.Get(Service), isEmail).None?;
      assert Rule(Message, b.Get(Message), isEmail).None?;
    }
  }

  /** With an empty `errors` list, the key `f` passes its rule. */
  lemma PassesWhenNoIssues(b: Body, isEmail: string -> bool, f: FieldName)
    requires b.Fields? && Issues(b, isEmail) == []
    ensures Rule(f, b.Get(f), isEmail).None?
  {
    assert Shape[Position(f)] == f;
  }

  /** The schema reports no issue exactly when the body meets every constraint. */
  lemma IssuesEmptyIffValid(b: Body, isEmail: string -> bool)
    ensures Issues(b, isEmail) == [] <==> Valid(b, isEmail)
  {
    if b.Fields? {
      ValidIffRulesPass(b, isEmail);
      var r := Issues(b, isEmail);
      if r == [] {
        forall f: FieldName ensures Rule(f, b.Get(f), isEmail).None? {
          PassesWhenNoIssues(b, isEmail, f);
        }
      } else {
        var f := r[0].path[0];
        assert Rule(f, b.Get(f), isEmail).Some?;
      }
    }
  }

  /**
    For an object body, a key appears in the `errors` list exactly when its
    value breaks that key's rule, and then with the rule's violation.
   */
  lemma IssuesNameFailingFields(b: Body, isEmail: string -> bool, f: FieldName)
    requires b.Fields?
    ensures Rule(f, b.Get(f), isEmail).Some? ==> Issue([f], Rule(f, b.Get(f), isEmail).value) in Issues(b, isEmail)
    ensures forall i :: i in Issues(b, isEmail) && i.path == [f] ==> Rule(f, b.Get(f), isEmail) == Some(i.code)
  {
    assert Shape[Position(f)] == f;
  }

  /** The `/api/contact` handler: validate, then answer 400, 500 or 200. */
  function Handle(b: Body, isEmail: string -> bool, fault: bool): (r: Response)
    ensures r.status == 200 || r.status == 400 || r.status == 500
    ensures r.body.success <==> r.status == 200
    ensures r.status == 200 <==> Valid(b, isEmail) && !fault
    ensures r.status == 400 <==> !Valid(b, isEmail)
    ensures r.status == 200 ==> r.body.message == SuccessMessage && r.body.errors.None?
    ensures r.status == 400 ==>
      r.body.message == InvalidMessage && r.body.errors == Some(Issues(b, isEmail)) && |r.body.errors.value| > 0
    ensures r.status == 500 ==> r.body.message == FailureMessage && r.body.errors.None?
  {
    IssuesEmptyIffValid(b, isEmail);
    var issues := Issues(b, isEmail);
    if issues != [] then
      Response(400, ResponseBody(false, InvalidMessage, Some(issues)))
    else if fault then
      Response(500, ResponseBody(false, FailureMessage, None))
    else
      Response(200, ResponseBody(true, SuccessMessage, None))
  }

  /** A first or last name is rejected at one character and accepted at two. */
  lemma NameBoundary(b: Body, isEmail: string -> bool, s: string)
    requires Valid(b, isEmail)
    ensures |s| == 1 ==>
      && Handle(b.(firstName := Text(s)), isEmail, false).status == 400
      && Issue([FirstName], TooSmall(2)) in Issues(b.(firstName := Text(s)), isEmail)
      && Handle(b.(lastName := Text(s)), isEmail, false).status == 400
      && Issue([LastName], TooSmall(2)) in Issues(b.(lastName := Text(s)), isEmail)
    ensures |s| == 2 ==>
      && Handle(b.(firstName := Text(s)), isEmail, false).status == 200
      && Handle(b.(lastName := Text(s)), isEmail, false).status == 200
  {
    IssuesNameFailingFields(b.(firstName := Text(s)), isEmail, FirstName);
    IssuesNameFailingFields(b.(lastName := Text(s)), isEmail, LastName);
  }

  /** A message is rejected at nine characters and accepted at ten. */
  lemma MessageBoundary(b: Body, isEmail: string -> bool, s: string)
    requires Valid(b, isEmail)
    ensures |s| == 9 ==>
      && Handle(b.(message := Text(s)), isEmail, false).status == 400
      && Issue([Message], TooSmall(10)) in Issues(b.(message := Text(s)), isEmail)
    ensures |s| == 10 ==> Handle(b.(message := Text(s)), isEmail, false).status == 200
  {
    IssuesNameFailingFields(b.(message := Text(s)), isEmail, Message);
  }

  /** The company may be left out, or be any string, without affecting validity. */
  lemma CompanyOptional(b: Body, isEmail: string -> bool, s: string)
    requires b.Fields?
    ensures Valid(b.(company := Missing), isEmail) <==> Valid(b.(company := Text(s)), isEmail)
    ensures Valid(b, isEmail) ==> Valid(b.(company := Missing), isEmail)
  {
  }

  /**
    The service is only checked to be a string: any string, the empty one and
    strings outside the form's option list included, passes, while an absent
    service is reported as required.
   */
  lemma ServiceOnlyTypeChecked(b: Body, isEmail: string -> bool, s: string)
    requires Valid(b, isEmail)
    ensures Valid(b.(service := Text(s)), isEmail)
    ensures !Valid(b.(service := Missing), isEmail)
    ensures Issue([Service], Required) in Issues(b.(service := Missing), isEmail)
    ensures forall i :: i in Issues(b.(service := Missing), isEmail) ==> i == Issue([Service], Required)
  {
    MissingServiceIssues(b.(service := Missing), isEmail);
  }

  /** The issues of a body that fails on the service key alone. */
  lemma MissingServiceIssues(m: Body, isEmail: string -> bool)
    requires m.Fields? && m.service.Missing?
    requires forall f :: f != Service ==> Rule(f, m.Get(f), isEmail).None?
    ensures Issue([Service], Required) in Issues(m, isEmail)
    ensures forall i :: i in Issues(m, isEmail) ==> i == Issue([Service], Required)
  {
    IssuesNameFailingFields(m, isEmail, Service);
    var r := Issues(m, isEmail);
    forall k | 0 <= k < |r| ensures r[k] == Issue([Service], Required) {
      var f := r[k].path[0];
      assert Rule(f, m.Get(f), isEmail) == Some(r[k].code);
    }
  }

  /** Once the body is valid, any later fault in the handler yields the generic 500 response. */
  lemma FaultAfterValidation(b: Body, isEmail: string -> bool)
    requires Valid(b, isEmail)
    ensures Handle(b, isEmail, true) == Response(500, ResponseBody(false, FailureMessage, None))
    ensures Handle(b, isEmail, false) == Response(200, ResponseBody(true, SuccessMessage, None))
  {
  }

  /** A well-formed submission is answered with 200 and the thank-you message. */
  lemma AcceptedScenario(isEmail: string -> bool)
    requires isEmail("a@b.com")
    ensures Handle(Fields(Text("Al"), Text("Ex"), Text("a@b.com"), Missing, Text("chatbots"), Text("Hello there!")), isEmail, false)
         == Response(200, ResponseBody(true, SuccessMessage, None))
  {
  }

  /** A malformed email address is answered with 400 and an email issue. */
  lemma BadEmailScenario(isEmail: string -> bool)
    requires !isEmail("not-an-email")
    ensures var r := Handle(Fields(Text("Al"), Text("Ex"), Text("not-an-email"), Missing, Text("chatbots"), Text("Hello there!")), isEmail, false);
      r.status == 400 && !r.body.success && Issue([Email], InvalidEmail) in r.body.errors.value
  {
    IssuesNameFailingFields(Fields(Text("Al"), Text("Ex"), Text("not-an-email"), Missing, Text("chatbots"), Text("Hello there!")), isEmail, Email);
  }

  /** A five-character message is answered with 400 and a message issue. */
  lemma ShortMessageScenario(isEmail: string -> bool)
    requires isEmail("a@b.com")
    ensures var r := Handle(Fields(Text("Al"), Text("Ex"), Text("a@b.com"), Missing, Text("chatbots"), Text("short")), isEmail, false);
      r.status == 400 && !r.body.success && Issue([Message], TooSmall(10)) in r.body.errors.value
  {
    var body := Fields(Text("Al"), Text("Ex"), Text("a@b.com"), Missing, Text("chatbots"), Text("short"));
    assert |body.message.s| == 5;
    assert Rule(Message, body.Get(Message), isEmail) == Some(TooSmall(10));
    IssuesNameFailingFields(body, isEmail, Message);
  }
}
