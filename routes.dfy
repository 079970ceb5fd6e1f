/** The two form endpoints of the web server (server/routes.ts) and the CRM
    relay they use. Each handler is the body of its `try` block, step by step
    against the shared store, and the `catch` block's answer for what the
    `try` block throws. The relay's HTTP call is an outcome given as a
    parameter, and `Date.now()` is the parameter `now`. */
module Routes {
  import opened Wrappers
  import opened Text
  import opened Schema
  import opened Storage

  const McpServerUrl := "https://superb-inspiration-production.up.railway.app"

  /** The `arguments` of the `zoho_create_lead` tool call; `email` is `None` when left undefined. */
  datatype LeadArguments = LeadArguments(
    firstName: string, lastName: string, email: Option<string>, phone: string, company: string)

  /** The JSON-RPC envelope posted to `${McpServerUrl}/mcp`; `rpcMethod` is its `method` member. */
  datatype McpRequest = McpRequest(jsonrpc: string, rpcMethod: string, tool: string, arguments: LeadArguments, id: int)

  /** What `fetch` gives back: a network failure, or a response with its `ok`
      flag and its body when the body is JSON (`None`: `response.json()` throws). */
  datatype FetchOutcome = NetworkError | Responded(ok: bool, json: Option<string>)

  /** The lead envelope built by `createZohoLead(phoneNumber, email)` at time `now`. */
  function LeadEnvelope(phoneNumber: string, email: Option<string>, now: int): (e: McpRequest)
    ensures e.jsonrpc == "2.0" && e.rpcMethod == "tools/call" && e.tool == "zoho_create_lead"
    ensures e.arguments.firstName == "" && e.arguments.lastName == "Ruka Demo Request"
    ensures e.arguments.company == "Via Ruka Website"
    ensures e.arguments.phone == phoneNumber && e.id == now
    ensures e.arguments.email.None? <==> !Truthy(email)
    ensures e.arguments.email.Some? ==> e.arguments.email == email
  {
    McpRequest("2.0", "tools/call", "zoho_create_lead",
      LeadArguments("", "Ruka Demo Request", if Truthy(email) then email else None, phoneNumber, "Via Ruka Website"),
      now)
  }

  /** `createZohoLead`: the parsed response on success, `None` (the source's
      `null`) on a network error, a body that is not JSON, or a non-ok status.
      It never throws. */
  function CreateZohoLead(outcome: FetchOutcome): (r: Option<string>)
    ensures r.Some? <==> outcome.Responded? && outcome.ok && outcome.json.Some?
    ensures r.Some? ==> r.value == outcome.json.value
  {
    match outcome
    case NetworkError => None
    case Responded(ok, json) =>
      if json.None? then None
      else if !ok then None
      else json
  }

  datatype ResponseBody =
    | Subscribed(message: string, email: string)
    | AlreadySubscribed(message: string, alreadySubscribed: bool)
    | CallRequestReceived(message: string, phoneNumber: string, email: string)
    | ValidationFailed(message: string, errors: seq<Issue>)
    | Failed(message: string)

  datatype Response = Response(status: int, body: ResponseBody)

  /** What a handler's `try` block can throw: the schema's validation error, or anything else. */
  datatype Thrown = ZodError(errors: seq<Issue>) | UnexpectedError

  /** `error.errors[0]?.message || fallback` */
  function FirstMessageOr(errors: seq<Issue>, fallback: string): (m: string)
    ensures |errors| > 0 && errors[0].message != "" ==> m == errors[0].message
    ensures (|errors| == 0 || errors[0].message == "") ==> m == fallback
  {
    if |errors| > 0 && errors[0].message != "" then errors[0].message else fallback
  }

  const SubscribedMessage := "Successfully subscribed to updates"
  const AlreadySubscribedMessage := "Email already subscribed"
  const CallRequestReceivedMessage := "Call request received! Our AI agent will call you shortly."
  const SubscribeFailedMessage := "Failed to subscribe. Please try again."
  const CallRequestFailedMessage := "Failed to process call request. Please try again."

  /** The email subscription endpoint's `catch` block: 400 for a validation
      error, 500 with a fixed message for anything else. */
  function CatchEmailSubscription(e: Thrown): (r: Response)
    ensures e.ZodError? ==> r.status == 400 && r.body.ValidationFailed? && r.body.errors == e.errors
    ensures e.ZodError? ==> r.body.message == FirstMessageOr(e.errors, "Invalid email format")
    ensures e.UnexpectedError? ==> r == Response(500, Failed(SubscribeFailedMessage))
  {
    match e
    case ZodError(errors) => Response(400, ValidationFailed(FirstMessageOr(errors, "Invalid email format"), errors))
    case UnexpectedError => Response(500, Failed(SubscribeFailedMessage))
  }

  /** The call request endpoint's `catch` block. */
  function CatchCallRequest(e: Thrown): (r: Response)
    ensures e.ZodError? ==> r.status == 400 && r.body.ValidationFailed? && r.body.errors == e.errors
    ensures e.ZodError? ==> r.body.message == FirstMessageOr(e.errors, "Invalid input")
    ensures e.UnexpectedError? ==> r == Response(500, Failed(CallRequestFailedMessage))
  {
    match e
    case ZodError(errors) => Response(400, ValidationFailed(FirstMessageOr(errors, "Invalid input"), errors))
    case UnexpectedError => Response(500, Failed(CallRequestFailedMessage))
  }

  /** POST /api/email-subscription. The in-memory store never throws, so the
      answer is always 400, 409 or 201; only the 201 path changes the store. */
  method PostEmailSubscription(store: MemStorage, body: Body, isEmail: string -> bool, id: string, now: int)
    returns (res: Response)
    requires store.Valid()
    modifies store
    ensures store.Valid()
    ensures store.users == old(store.users) && store.callRequests == old(store.callRequests)
    ensures res.status == 400 || res.status == 409 || res.status == 201
    ensures ParseEmailSubscription(body, isEmail).Err? ==>
      var errors := ParseEmailSubscription(body, isEmail).error;
      && res == Response(400, ValidationFailed(FirstMessageOr(errors, "Invalid email format"), errors))
      && store.emailSubscriptions == old(store.emailSubscriptions)
    ensures ParseEmailSubscription(body, isEmail).Ok? ==>
      var email := ParseEmailSubscription(body, isEmail).value.email;
      if email in old(store.emailSubscriptions.entries) then
        && res == Response(409, AlreadySubscribed(AlreadySubscribedMessage, true))
        && store.emailSubscriptions == old(store.emailSubscriptions)
      else
        && res == Response(201, Subscribed(SubscribedMessage, email))
        && store.emailSubscriptions == old(store.emailSubscriptions).Set(email, EmailSubscription(id, email, now))
  {
    var parsed := ParseEmailSubscription(body, isEmail);
    if parsed.Err? {
      res := CatchEmailSubscription(ZodError(parsed.error));
      return;
    }
    var validated := parsed.value;
    var existing := store.GetEmailSubscription(validated.email);
    if existing.Some? {
      res := Response(409, AlreadySubscribed(AlreadySubscribedMessage, true));
      return;
    }
    var subscription := store.CreateEmailSubscription(validated, id, now);
    res := Response(201, Subscribed(SubscribedMessage, subscription.email));
  }

  /** What the call request endpoint did, in order. */
  datatype Effect = Stored(request: CallRequest) | CrmCalled(envelope: McpRequest, result: Option<string>)

  /** POST /api/call-request. A valid request is stored first, then the CRM
      relay is called, and the answer is 201 whatever the relay returned. */
  method PostCallRequest(store: MemStorage, body: Body, isEmail: string -> bool, id: string, now: int, crm: FetchOutcome)
    returns (res: Response, effects: seq<Effect>)
    requires store.Valid()
    modifies store
    ensures store.Valid()
    ensures store.users == old(store.users) && store.emailSubscriptions == old(store.emailSubscriptions)
    ensures res.status == 400 || res.status == 201
    ensures ParseCallRequest(body, isEmail).Err? ==>
      var errors := ParseCallRequest(body, isEmail).error;
      && res == Response(400, ValidationFailed(FirstMessageOr(errors, "Invalid input"), errors))
      && effects == []
      && store.callRequests == old(store.callRequests)
    ensures ParseCallRequest(body, isEmail).Ok? ==>
      var v := ParseCallRequest(body, isEmail).value;
      var request := CallRequest(id, v.phoneNumber, v.email, now);
      && store.callRequests == old(store.callRequests).Set(id, request)
      && effects == [Stored(request), CrmCalled(LeadEnvelope(v.phoneNumber, Some(v.email), now), CreateZohoLead(crm))]
      && res == Response(201, CallRequestReceived(CallRequestReceivedMessage, v.phoneNumber, v.email))
  {
    var parsed := ParseCallRequest(body, isEmail);
    if parsed.Err? {
      res := CatchCallRequest(ZodError(parsed.error));
      effects := [];
      return;
    }
    var validated := parsed.value;
    var callRequest := store.CreateCallRequest(validated, id, now);
    effects := [Stored(callRequest)];
    var envelope := LeadEnvelope(validated.phoneNumber, Some(validated.email), now);
    var zohoResult := CreateZohoLead(crm);
    effects := effects + [CrmCalled(envelope, zohoResult)];
    res := Response(201, CallRequestReceived(CallRequestReceivedMessage, callRequest.phoneNumber, callRequest.email));
  }

  /** Subscribing the same valid, new email twice answers 201 and then 409,
      and leaves exactly one subscription for it. */
  method SubscribeTwice(store: MemStorage, body: Body, isEmail: string -> bool, id1: string, id2: string, t1: int, t2: int)
    returns (first: Response, second: Response)
    requires store.Valid()
    requires ParseEmailSubscription(body, isEmail).Ok?
    requires ParseEmailSubscription(body, isEmail).value.email !in store.emailSubscriptions.entries
    modifies store
    ensures first.status == 201 && second == Response(409, AlreadySubscribed(AlreadySubscribedMessage, true))
    ensures store.Valid()
    ensures var email := ParseEmailSubscription(body, isEmail).value.email;
      && store.emailSubscriptions.keys == old(store.emailSubscriptions.keys) + [email]
      && store.emailSubscriptions.entries[email] == EmailSubscription(id1, email, t1)
  {
    first := PostEmailSubscription(store, body, isEmail, id1, t1);
    second := PostEmailSubscription(store, body, isEmail, id2, t2);
  }
}
