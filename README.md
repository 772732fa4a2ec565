# Contact form, roadmap navigator and gradient helper of the MIT marketing site

This project is a verified Dafny model of the parts of the site that carry
logic:

- the `POST /api/contact` endpoint (`server/routes.ts`): the server-side
  `contactFormSchema` over the six fields of a contact submission and the
  handler that answers 200 (thank-you message), 400 (`Invalid form data` and
  the list of schema issues) or 500 (generic failure);
- the contact form component (`client/src/components/contact-form.tsx`): the
  client-side `formSchema` with one message per field, the default values, the
  four service options, and the submit state machine (`isSubmitting`, one
  request per submit, reset on success, values kept on failure);
- the roadmap component (`client/src/components/roadmap.tsx`): the
  `activePhase` cursor over the four phases with next / previous / jump, and
  the views derived from it (progress width, node status, disabled buttons,
  node labels);
- `cssGradient` (`client/src/lib/utils.ts`).

Files and modules:

| file | module | contents |
|---|---|---|
| `wrappers.dfy` | `Wrappers` | `Option` |
| `submission.dfy` | `Submission` | the submission record as a JSON body: field names, key order, values |
| `js_string.dfy` | `JsString` | JavaScript's `String.prototype.split`, then `Array.prototype.slice` and `join` on the resulting array, for a one-character separator |
| `routes.dfy` | `Routes` | server schema, issue list, handler |
| `contact_form.dfy` | `ContactForm` | client schema and messages, request body, the `Form` class |
| `roadmap.dfy` | `Roadmap` | phases, transitions, derived views, the `Navigator` class |
| `utils.dfy` | `Utils` | `CssGradient` |

Modelling choices:

- Email syntax is decided by the validation library (zod), whose code is not
  part of this model. Every member that depends on it takes it as the
  parameter `isEmail: string -> bool`, so each property holds for any email
  check.
- A request body is either a JSON object, whose six keys may each be absent,
  a string or some other JSON value, or a value that is not an object at all.
  The issue list follows the schema's key order. Each issue keeps its path and
  its kind (required, wrong type, too short with the minimum, invalid email).
- The handler is a function, `Routes.Handle`: it keeps no state, and the
  imported `storage` is never used. Identical bodies therefore always get
  identical responses, and nothing is deduplicated. The parameter `fault`
  stands for an exception thrown inside the handler's `try` block after the
  schema has accepted the body. Such an exception gives the 500 response. A
  schema failure is detected first and always gives 400.
- The form's values are strings or `undefined` (`Option<string>`). The body
  sent to the server maps `undefined` to an absent key (`ContactForm.ToBody`).
- `onSubmit` awaits the request, so it is split into `BeginSubmit` (raise
  `isSubmitting`, issue the request) and `FinishSubmit` (notify, reset or
  keep, lower the flag). `Form.Submit` is the whole button press: validation
  first, then both halves. The server's answer comes from `Routes.Handle`,
  and the parameter `delivered` says whether the request reached the server.
  `client/src/lib/queryClient.ts` (`apiRequest`) is not part of this model.
  It is taken to reject every answer outside 2xx, and every network error.
- `activePhase` is the field of `Roadmap.Navigator`. Its moves are stated
  against the pure transitions `NextPhase` and `PrevPhase`, and the derived
  views are pure functions of the phase index.

The form presents `service` as a choice the user must make, but the code does
not enforce that choice:

- Neither schema rejects an empty service. Both check only that `service` is
  a string. The form starts with `service: ''`, so a form submitted without
  choosing a service passes the client schema and is accepted by the server.
  The message "Please select a service." appears only when the value is
  `undefined`. See `Routes.ServiceOnlyTypeChecked` and
  `ContactForm.DefaultsInvalid`.
- The server does not check that the service is one of the four offered
  identifiers.

## Model

| member | source | states |
|---|---|---|
| `Routes.MinLength` | server/routes.ts:8-13 | a value passes `z.string().min(min)` exactly when it is a string of at least `min` characters; a string that is too short is reported as too small with that minimum |
| `Routes.Rule` | server/routes.ts:7-14 | a value that is present but not a string is rejected under every key, and it is the only value rejected as a type error; an absent value is reported as required under every key but `company`, and required is reported for nothing else; `company` and `service` accept every string; a name passes exactly when it has at least 2 characters, the message exactly when it has at least 10, and the email exactly when the email check accepts it; only `email` is checked for syntax; only the names (minimum 2) and the message (minimum 10) are checked for length |
| `Routes.Valid` | server/routes.ts:7-14 | a valid body is an object holding a string under every key but `company` |
| `Routes.Issues` | server/routes.ts:24-43 | a body that is not an object gets one type issue at the root; for an object, each issue names one key and is that key's violation, and the issues follow the schema's key order with at most one per key |
| `Routes.FieldIssuesInOrder` | server/routes.ts:7-14 | issues for keys checked in the schema's order come out in that order, at most one per key |
| `Routes.Handle` | server/routes.ts:21-51 | the status is 200, 400 or 500; `success` holds iff the status is 200; 200 iff the body is valid and no fault occurs, with the thank-you message and no errors; 400 iff the body is invalid, with "Invalid form data" and the non-empty issue list; 500 with the generic message otherwise |
| `Routes.FieldIssues` | server/routes.ts:7-14 | every reported issue names one key and is that key's rule violation, and every key that breaks its rule is reported |
| `Routes.IssuesEmptyIffValid` | server/routes.ts:7-14 | `contactFormSchema.parse` reports no issue exactly when the body meets every field constraint |
| `Routes.ValidIffRulesPass` | server/routes.ts:7-14 | an object body is valid exactly when each of its six keys passes its rule |
| `Routes.IssuesNameFailingFields` | server/routes.ts:38-43 | for an object body, a key is in the `errors` list exactly when its value breaks its rule, and then with that violation |
| `Routes.NameBoundary` | server/routes.ts:8-9 | a first or last name of one character gives 400 with a too-small issue; two characters give 200 |
| `Routes.MessageBoundary` | server/routes.ts:13 | a message of nine characters gives 400 with a too-small issue; ten characters give 200 |
| `Routes.CompanyOptional` | server/routes.ts:11 | an absent company and any string company are equally valid, and dropping the company never invalidates a valid body |
| `Routes.ServiceOnlyTypeChecked` | server/routes.ts:12 | any string service, the empty one included, keeps a valid body valid; an absent service makes it invalid, and "required" on `service` is then the only issue |
| `Routes.FaultAfterValidation` | server/routes.ts:46-49 | for a valid body, a fault after validation gives exactly the generic 500 response, and no fault gives exactly the 200 response |
| `Routes.AcceptedScenario` | server/routes.ts:31-34 | when the email check accepts `a@b.com`, the submission Al / Ex / a@b.com / chatbots / "Hello there!" is answered 200 with the thank-you message |
| `Routes.BadEmailScenario` | server/routes.ts:38-43 | when the email check rejects "not-an-email", the same submission with that email is answered 400 with an invalid-email issue on `email` |
| `Routes.ShortMessageScenario` | server/routes.ts:38-43 | when the email check accepts `a@b.com`, the same submission with message "short" is answered 400 with a too-small issue on `message` |
| `ContactForm.MinLengthMessage` | client/src/components/contact-form.tsx:15-16 | a field passes exactly when it is defined and has at least `min` characters; the message is "Required" for an undefined field and the field's own text otherwise |
| `ContactForm.FieldMessage` | client/src/components/contact-form.tsx:14-21 | the form flags a field exactly when the server's rule rejects the same value; an undefined field reads "Required", except the service, which reads "Please select a service." |
| `ContactForm.Errors` | client/src/components/contact-form.tsx:14-21 | the flagged fields are exactly those whose value the server's schema rejects; a defined first name, last name, email or message gets its fixed text, and an undefined field gets "Required" or, for the service, "Please select a service." |
| `ContactForm.ToBody` | client/src/components/contact-form.tsx:44 | the request body is an object whose keys carry the form's fields, with `undefined` fields absent, and never a non-string value |
| `ContactForm.ToBodyInjective` | client/src/components/contact-form.tsx:44 | different form values always give different request bodies |
| `ContactForm.ClientAgreesWithServer` | client/src/components/contact-form.tsx:14-21 | the fields the form flags are exactly the keys the server lists in `errors`; the form has no errors iff the server accepts the body |
| `ContactForm.DefaultsInvalid` | client/src/components/contact-form.tsx:31-38 | when the email check rejects the empty string, with every default value the empty string the untouched form is flagged on exactly first name, last name, email and message |
| `ContactForm.ServiceOptionsAccepted` | client/src/components/contact-form.tsx:228-233 | each of the four offered service identifiers passes both the client and the server service rule |
| `ContactForm.RequestSucceeds` | client/src/components/contact-form.tsx:44 | for a form the client accepts, the request succeeds iff it reaches the server and no server fault occurs; a form the client rejects never succeeds |
| `ContactForm.Form.constructor` | client/src/components/contact-form.tsx:26-39 | the form starts with the default values, no errors, `isSubmitting` false, no notification and nothing sent |
| `ContactForm.Form.Edit` | client/src/components/contact-form.tsx:144-257 | typing into a field sets that field and changes nothing else |
| `ContactForm.Form.BeginSubmit` | client/src/components/contact-form.tsx:41-44 | while the request is in flight `isSubmitting` is true, and exactly one request carrying the data has been added |
| `ContactForm.Form.FinishSubmit` | client/src/components/contact-form.tsx:45-59 | afterwards `isSubmitting` is false; on success the fields return to their defaults with the "Message sent!" notification; on failure the values are kept with the error notification |
| `ContactForm.Form.Submit` | client/src/components/contact-form.tsx:41-60 | a submit goes through iff the client schema accepts the values; then exactly one request with those values is sent and `isSubmitting` ends false; the form is reset iff the request reached the server and no fault occurred, otherwise the values are kept; an invalid form only shows its messages and sends nothing |
| `Roadmap.ButtonsDisabledOnlyAtEnds` | client/src/components/roadmap.tsx:277-289 | the Previous and Next buttons are never disabled together, and on every phase between the first and the last both are enabled |
| `Roadmap.NextPhase` | client/src/components/roadmap.tsx:119-123 | the next phase stays within the four phases; it moves iff the Next button is enabled, and then by exactly one |
| `Roadmap.PrevPhase` | client/src/components/roadmap.tsx:125-129 | the previous phase stays within the four phases; it moves iff the Previous button is enabled, and then back by exactly one |
| `Roadmap.PrevAfterNext` | client/src/components/roadmap.tsx:119-129 | from any phase but the last, next then previous returns to the same phase |
| `Roadmap.NextAfterPrev` | client/src/components/roadmap.tsx:119-129 | from any phase but the first, previous then next returns to the same phase |
| `Roadmap.ProgressBounds` | client/src/components/roadmap.tsx:76 | the progress width is between 25 and 100 percent, equals `100 * (phase + 1) / 4`, is full iff the last phase is active, and grows strictly with the phase |
| `Roadmap.HighlightedIffReached` | client/src/components/roadmap.tsx:182-198 | a node is highlighted iff it is completed or active |
| `Roadmap.OneActiveNode` | client/src/components/roadmap.tsx:188 | exactly one node, the active phase, is drawn as active |
| `Roadmap.CompletedCount` | client/src/components/roadmap.tsx:200-206 | the number of completed nodes equals the active phase index |
| `Roadmap.TitleLabel` | client/src/components/roadmap.tsx:213 | a node label is always a prefix of its phase title, and the whole title when the title has at most two words |
| `Roadmap.LabelOfTwoWords` | client/src/components/roadmap.tsx:213 | for a title of two space-free words, a space and a rest, the label is the two words joined by a space |
| `Roadmap.PhaseTitleWords` | client/src/components/roadmap.tsx:22-71 | each phase title is two space-free words, a space and a rest |
| `Roadmap.NodeLabels` | client/src/components/roadmap.tsx:213 | the node labels are "Foundation &", "Product &", "Market Penetration" and "Global Scaling" |
| `Roadmap.Navigator.constructor` | client/src/components/roadmap.tsx:17 | the roadmap opens on phase 0, with Previous disabled and Next enabled |
| `Roadmap.Navigator.HandlePhaseClick` | client/src/components/roadmap.tsx:115-117 | clicking node `index` makes it the active phase |
| `Roadmap.Navigator.GoToNextPhase` | client/src/components/roadmap.tsx:119-123 | the phase advances by one below the last phase and is unchanged on it, so it stays in range |
| `Roadmap.Navigator.GoToPrevPhase` | client/src/components/roadmap.tsx:125-129 | the phase goes back by one above the first phase and is unchanged on it, so it stays in range |
| `Roadmap.Navigator.Current` | client/src/components/roadmap.tsx:242-248 | the displayed phase is one of the four, numbered one more than the active index |
| `JsString.Split` | client/src/components/roadmap.tsx:213 | `split(' ')` yields at least one piece, and no piece contains the separator |
| `JsString.Take` | client/src/components/roadmap.tsx:213 | `slice(0, n)` keeps the first `n` pieces in order, or all of them when there are fewer |
| `JsString.Join` | client/src/components/roadmap.tsx:213 | the joined string starts with the first piece and holds the separator when there are at least two pieces |
| `JsString.JoinSplit` | client/src/components/roadmap.tsx:213 | joining the pieces of a split with the same separator gives back the original string |
| `Utils.CssGradient` | client/src/lib/utils.ts:9-10 | the class string starts with `bg-gradient-to-` and its length is `25 + |direction| + |from| + |to|` |
| `Utils.GradientClasses` | client/src/lib/utils.ts:10 | with single-token arguments, the result is exactly the three classes `bg-gradient-to-<direction>`, `from-<from>` and `to-<to>` |
| `Utils.DefaultDirection` | client/src/lib/utils.ts:9 | for any colours, leaving out the direction is the same as passing `r`, and the first class is `bg-gradient-to-r` |
| `Utils.GradientInjective` | client/src/lib/utils.ts:10 | different single-token arguments never give the same class string |

## Left out

- Email syntax: zod's email check is not part of this model. It is the parameter `isEmail`.
- String length: JavaScript counts UTF-16 code units and the model counts characters. The two differ only for characters outside the Basic Multilingual Plane.
- The wording and extra fields of zod's issues (`message`, `expected`, `received`, `inclusive`, `exact`): an issue keeps only its path and its kind.
- Malformed JSON: Express's body parser rejects it before the handler runs, so it is not modelled.
- Logging (`console.log`, `console.error`), `createServer`, the unused `storage` import and the Express registration: these are I/O or framework plumbing.
- `apiRequest` and the network: represented by the parameters `delivered` and `serverFault`. Timeouts and status codes other than those `Routes.Handle` produces are not modelled.
- Toasts: only the last notification raised is kept, not how it is displayed or dismissed.
- Field-by-field re-validation while typing after a failed submit: this is react-hook-form's behaviour. The model validates on submit.
- ContactForm.Form.Submit: it runs the two halves of `onSubmit` back to back. Overlapping submissions are possible only by calling `BeginSubmit` and `FinishSubmit` separately, and the model does not reason about them.
- Roadmap.Navigator.HandlePhaseClick: requires an index in range, because the only callers are the four node buttons, which pass their own index.
- Roadmap.NodeLabels: states each label as its two words joined by a space rather than as one string literal.
- The progress width is modelled as a number of percent, not as the CSS string `"<n>%"`.
- Animations and visual effects: the framer-motion variants and timings, `hoveredPoint`, the phase-specific visualisations, the random particles and `scrollToContact`.
- `cn` and `injectStyles` in `utils.ts`: `cn` wraps class-merging libraries, and `injectStyles` writes to the DOM.
