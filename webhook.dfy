/** The WhatsApp relay's webhooks (whatsapp-integration/src/routes/whatsapp.ts).
    Each POST handler runs its `try` block step by step and answers 200 "OK"
    on every path, including every path where the block throws. The call to
    the landing page's call request endpoint is the parameter `submit`,
    which tells whether a submission succeeded (it never throws); the reply's delivery is the
    parameter `delivered`; the clock is `timestamp`. */
module WhatsAppWebhook {
  import opened Wrappers
  import opened Text
  import opened AdTracker
  import opened WhatsAppService

  const ReplyText := "Thanks for your enquiry! You will get an automated call to know more about Ruka - Human Like Calling Agent."
  const WhatsAppPrefix := "whatsapp:"
  const FallbackLeadName := "Instagram Lead"

  /** What the relay posts to the call request endpoint; `email` stays
      `None` when no email was extracted (it is then sent as ""). */
  datatype LeadSubmission = LeadSubmission(phoneNumber: Option<string>, name: string, email: Option<string>)

  /** What a POST handler did: its answer, the submission it made (if any),
      and the reply it attempted after a successful submission (if any). */
  datatype WebhookResult = WebhookResult(status: int, body: string, submission: Option<LeadSubmission>, reply: Option<ReplyOutcome>)

  /** `leadData.name || profileName || 'Instagram Lead'` */
  function SubmittedName(leadName: string, profileName: Option<string>): (n: string)
    ensures n != ""
    ensures leadName != "" ==> n == leadName
    ensures leadName == "" ==> n == OrElse(profileName, FallbackLeadName)
  {
    if leadName != "" then leadName else OrElse(profileName, FallbackLeadName)
  }

  /** The submitted name is the parsed name when it is not empty, and
      otherwise the profile name, which is also the parser's own fallback. */
  lemma SubmittedNameFallsBackToProfile(message: string, profileName: Option<string>)
    requires PhraseCapture(message).None? && CapitalisedCapture(message).None?
    ensures SubmittedName(NameOf(message, profileName), profileName) == OrElse(profileName, "Unknown")
  {
  }

  /** The form fields of a Twilio webhook request. */
  datatype TwilioRequest = TwilioRequest(from: Option<string>, body: Option<string>, profileName: Option<string>)

  /** POST /twilio. A non-ad (or missing) body is acknowledged and ignored; an
      ad lead without `From` throws before anything is submitted; otherwise
      the lead is parsed and submitted, and a reply follows a successful
      submission. Every path answers 200 "OK". */
  method TwilioWebhook(req: TwilioRequest, creds: Credentials, timestamp: string, submit: LeadSubmission -> bool, delivered: bool)
    returns (res: WebhookResult)
    ensures res.status == 200 && res.body == "OK"
    ensures res.submission.Some? <==>
      req.body.Some? && IsFromInstagramAd(req.body.value) && req.from.Some?
    ensures res.submission.Some? ==>
      var lead := LeadOf(req.body.value, req.profileName, timestamp);
      res.submission.value == LeadSubmission(Some(RemoveFirst(req.from.value, WhatsAppPrefix)),
                                             SubmittedName(lead.name, req.profileName), lead.email)
    ensures res.reply.Some? <==> res.submission.Some? && submit(res.submission.value)
    ensures res.reply.Some? ==> res.reply.value == SendReply(creds, req.from.value, ReplyText, delivered)
  {
    if req.body.None? || !IsFromInstagramAd(req.body.value) {
      return WebhookResult(200, "OK", None, None);
    }
    if req.from.None? {
      // `From.replace` throws; the catch block still answers 200.
      return WebhookResult(200, "OK", None, None);
    }
    var phoneNumber := RemoveFirst(req.from.value, WhatsAppPrefix);
    var leadData := ParseLeadMessage(req.body.value, req.profileName, timestamp);
    var submission := LeadSubmission(Some(phoneNumber), SubmittedName(leadData.name, req.profileName), leadData.email);
    var reply: Option<ReplyOutcome> := None;
    if submit(submission) {
      reply := Some(SendReply(creds, req.from.value, ReplyText, delivered));
    }
    res := WebhookResult(200, "OK", Some(submission), reply);
  }

  /** A Twilio sender `whatsapp:<number>` is submitted as `<number>`. */
  lemma TwilioPhoneDropsPrefix(number: string)
    ensures RemoveFirst(WhatsAppPrefix + number, WhatsAppPrefix) == number
  {
    RemoveFirstPrefix(WhatsAppPrefix, number);
  }

  datatype MetaProfile = MetaProfile(name: Option<string>)
  datatype MetaContact = MetaContact(profile: Option<MetaProfile>)
  datatype MetaMessage = MetaMessage(from: Option<string>, textBody: Option<string>)
  datatype MetaValue = MetaValue(messages: Option<seq<MetaMessage>>, contacts: Option<seq<MetaContact>>)
  datatype MetaChange = MetaChange(value: Option<MetaValue>)
  datatype MetaEntry = MetaEntry(changes: Option<seq<MetaChange>>)

  /** The body of a Meta webhook request: its `entry` array, if any. */
  datatype MetaRequest = MetaRequest(entry: Option<seq<MetaEntry>>)

  /** `entry && entry[0]?.changes?.[0]?.value?.messages`: a messages array is
      present (an empty array is still truthy). */
  predicate HasMessages(req: MetaRequest) {
    && req.entry.Some? && |req.entry.value| > 0
    && req.entry.value[0].changes.Some? && |req.entry.value[0].changes.value| > 0
    && req.entry.value[0].changes.value[0].value.Some?
    && req.entry.value[0].changes.value[0].value.value.messages.Some?
  }

  function ValueOf(req: MetaRequest): MetaValue
    requires HasMessages(req)
  {
    req.entry.value[0].changes.value[0].value.value
  }

  /** The first message, the first contact and its profile all exist; any of
      them missing makes the handler throw while logging, before the ad check. */
  predicate Readable(v: MetaValue) {
    && v.messages.Some? && |v.messages.value| > 0
    && v.contacts.Some? && |v.contacts.value| > 0
    && v.contacts.value[0].profile.Some?
  }

  /** `message.text?.body || ''` */
  function MessageText(m: MetaMessage): (r: string)
    ensures m.textBody.Some? ==> r == m.textBody.value
    ensures m.textBody.None? ==> r == ""
  {
    OrElse(m.textBody, "")
  }

  /** POST /meta. A payload without messages is acknowledged and ignored; a
      payload whose first message, contact or profile is missing throws and is
      acknowledged; a non-ad text is ignored; otherwise the lead is parsed,
      submitted with the sender's number, and a reply follows a successful
      submission. Every path answers 200 "OK". */
  method MetaWebhook(req: MetaRequest, creds: Credentials, timestamp: string, submit: LeadSubmission -> bool, delivered: bool)
    returns (res: WebhookResult)
    ensures res.status == 200 && res.body == "OK"
    ensures res.submission.Some? <==>
      HasMessages(req) && Readable(ValueOf(req)) && IsFromInstagramAd(MessageText(ValueOf(req).messages.value[0]))
    ensures res.submission.Some? ==>
      var message := ValueOf(req).messages.value[0];
      var profileName := ValueOf(req).contacts.value[0].profile.value.name;
      var lead := LeadOf(MessageText(message), profileName, timestamp);
      res.submission.value == LeadSubmission(message.from, SubmittedName(lead.name, profileName), lead.email)
    ensures res.reply.Some? <==> res.submission.Some? && submit(res.submission.value)
    ensures res.reply.Some? ==>
      res.reply.value == SendMetaReply(creds, ValueOf(req).messages.value[0].from.GetOr(""), ReplyText, delivered)
  {
    if !HasMessages(req) {
      return WebhookResult(200, "OK", None, None);
    }
    var value := ValueOf(req);
    if !Readable(value) {
      // Reading `message.from` or `contact.profile.name` throws; the catch block answers 200.
      return WebhookResult(200, "OK", None, None);
    }
    var message := value.messages.value[0];
    var contact := value.contacts.value[0];
    var text := MessageText(message);
    if !IsFromInstagramAd(text) {
      return WebhookResult(200, "OK", None, None);
    }
    var leadData := ParseLeadMessage(text, contact.profile.value.name, timestamp);
    var submission := LeadSubmission(message.from, SubmittedName(leadData.name, contact.profile.value.name), leadData.email);
    var reply: Option<ReplyOutcome> := None;
    if submit(submission) {
      reply := Some(SendMetaReply(creds, message.from.GetOr(""), ReplyText, delivered));
    }
    res := WebhookResult(200, "OK", Some(submission), reply);
  }

  /** A Meta message without text is treated as "" and is never an ad lead. */
  lemma MissingTextIsNotAd(m: MetaMessage)
    requires m.textBody.None?
    ensures !IsFromInstagramAd(MessageText(m))
  {
  }

  /** The answer to GET /meta: the status and the body sent. */
  datatype VerifyResponse = VerifyResponse(status: int, body: Option<string>)

  /** GET /meta as written: `mode && token === verifyToken`. With no token
      configured, a request that sends none passes. */
  function VerifyWebhookAsWritten(verifyToken: Option<string>, mode: Option<string>, token: Option<string>,
                                  challenge: Option<string>): (r: VerifyResponse)
    ensures r.status == 200 <==> Truthy(mode) && token == verifyToken
    ensures r.status == 200 ==> r.body == challenge
    ensures r.status != 200 ==> r == VerifyResponse(403, Some("Forbidden"))
  {
    if Truthy(mode) && token == verifyToken then VerifyResponse(200, challenge)
    else VerifyResponse(403, Some("Forbidden"))
  }

  /** Anyone can complete the handshake while the verify token is not configured. */
  lemma UnconfiguredTokenVerifies(challenge: Option<string>)
    ensures VerifyWebhookAsWritten(None, Some("subscribe"), None, challenge).status == 200
  {
  }

  /** GET /meta as evidently intended: the handshake passes only against a
      configured token. */
  function VerifyWebhook(verifyToken: Option<string>, mode: Option<string>, token: Option<string>,
                         challenge: Option<string>): (r: VerifyResponse)
    ensures r.status == 200 <==> Truthy(mode) && Truthy(verifyToken) && token == verifyToken
    ensures r.status == 200 ==> r.body == challenge
    ensures r.status != 200 ==> r == VerifyResponse(403, Some("Forbidden"))
  {
    if Truthy(mode) && Truthy(verifyToken) && token == verifyToken then VerifyResponse(200, challenge)
    else VerifyResponse(403, Some("Forbidden"))
  }

  /** With a token configured, the corrected handshake answers exactly as the
      written one; without one, it refuses every request. */
  lemma VerifyWebhookAgrees(verifyToken: Option<string>, mode: Option<string>, token: Option<string>,
                            challenge: Option<string>)
    ensures Truthy(verifyToken) ==>
      VerifyWebhook(verifyToken, mode, token, challenge) == VerifyWebhookAsWritten(verifyToken, mode, token, challenge)
    ensures !Truthy(verifyToken) ==> VerifyWebhook(verifyToken, mode, token, challenge).status == 403
  {
  }
}
