/** How the components meet at the call request endpoint. The landing page's
    form and the WhatsApp relay (whatsapp-integration/src/services/ruka-calling.ts)
    both post a JSON body to `/api/call-request`; the endpoint's schema demands
    a valid email, while the form always sends `email: ""` and the relay sends
    `""` whenever no email was extracted. Those submissions are answered 400
    and nothing is stored. */
module Integration {
  import opened Wrappers
  import opened Text
  import opened Schema
  import opened Storage
  import opened Routes
  import opened WhatsAppService
  import opened WhatsAppWebhook
  import opened LandingPage

  /** The JSON body the form's mutation posts. */
  function ClientCallBody(p: CallPayload): (b: Body)
    ensures b.Keys == {"name", "phoneNumber", "email"}
    ensures b["phoneNumber"] == Str(p.phoneNumber) && b["email"] == Str(p.email)
  {
    map["name" := Str(p.name), "phoneNumber" := Str(p.phoneNumber), "email" := Str(p.email)]
  }

  /** The JSON body `submitToRuka` posts: `email || ''`, and no `phoneNumber`
      member when the number is undefined (JSON drops it). */
  function RelayCallBody(sub: LeadSubmission): (b: Body)
    ensures "name" in b && b["name"] == Str(sub.name)
    ensures "email" in b && b["email"] == Str(OrElse(sub.email, ""))
    ensures "phoneNumber" in b <==> sub.phoneNumber.Some?
    ensures sub.phoneNumber.Some? ==> b["phoneNumber"] == Str(sub.phoneNumber.value)
  {
    var b := map["name" := Str(sub.name), "email" := Str(OrElse(sub.email, ""))];
    if sub.phoneNumber.Some? then b["phoneNumber" := Str(sub.phoneNumber.value)] else b
  }

  /** `submitToRuka` reports success exactly when the endpoint answers 201,
      which it does exactly when the body passes the schema. */
  predicate RelayAccepted(sub: LeadSubmission, isEmail: string -> bool) {
    ParseCallRequest(RelayCallBody(sub), isEmail).Ok?
  }

  /** Every call request the form can submit fails validation on its email. */
  lemma ClientCallRequestRejected(p: CallPayload, isEmail: string -> bool)
    requires SoundEmailCheck(isEmail)
    requires p.email == ""
    ensures ParseCallRequest(ClientCallBody(p), isEmail).Err?
    ensures Issue("email", EmailFormatMessage) in ParseCallRequest(ClientCallBody(p), isEmail).error
  {
    CallRequestRejectsEmptyEmail(ClientCallBody(p), isEmail);
  }

  /** A relay submission without an extracted email is never accepted. */
  lemma RelayWithoutEmailRejected(sub: LeadSubmission, isEmail: string -> bool)
    requires SoundEmailCheck(isEmail)
    requires !Truthy(sub.email)
    ensures !RelayAccepted(sub, isEmail)
    ensures Issue("email", EmailFormatMessage) in ParseCallRequest(RelayCallBody(sub), isEmail).error
  {
    CallRequestRejectsEmptyEmail(RelayCallBody(sub), isEmail);
  }

  /** A filled-in call request form, end to end: the form submits, the
      endpoint answers 400 on the email, and no call request is stored and
      no CRM call is made. */
  method SubmitCallForm(page: HomePage, store: MemStorage, isValidPhone: string -> bool,
                        isEmail: string -> bool, id: string, now: int, crm: FetchOutcome)
    returns (res: Option<Response>, effects: seq<Effect>)
    requires store.Valid() && SoundEmailCheck(isEmail)
    modifies page`phoneError, store
    ensures store.Valid()
    ensures res.Some? <==> Trim(page.name) != "" && page.phoneNumber != "" && isValidPhone(page.phoneNumber)
    ensures res.Some? ==> res.value.status == 400 && res.value.body.ValidationFailed?
    ensures effects == []
    ensures store.callRequests == old(store.callRequests) && store.emailSubscriptions == old(store.emailSubscriptions)
  {
    var submitted, _ := page.HandleCallFormSubmit(isValidPhone);
    if submitted.None? {
      return None, [];
    }
    ClientCallRequestRejected(submitted.value, isEmail);
    var response;
    response, effects := PostCallRequest(store, ClientCallBody(submitted.value), isEmail, id, now, crm);
    res := Some(response);
  }

  /** A Twilio ad lead relayed to this server: only a lead whose message
      carries an email can be accepted, so only such a lead is ever thanked. */
  method RelayTwilioLead(req: TwilioRequest, creds: Credentials, isEmail: string -> bool, timestamp: string, delivered: bool)
    returns (res: WebhookResult)
    requires SoundEmailCheck(isEmail)
    ensures res.status == 200
    ensures res.reply.Some? ==> res.submission.Some? && RelayAccepted(res.submission.value, isEmail)
    ensures res.reply.Some? ==> req.body.Some? && ExtractEmail(req.body.value).Some?
  {
    res := TwilioWebhook(req, creds, timestamp, sub => RelayAccepted(sub, isEmail), delivered);
    if res.submission.Some? && !Truthy(res.submission.value.email) {
      RelayWithoutEmailRejected(res.submission.value, isEmail);
    }
  }
}
