# Ruka landing page and WhatsApp relay, modelled in Dafny

Ruka is a landing page for an AI calling agent. It has three parts.

- **The web server.** It accepts email subscriptions and call requests. It validates them with zod schemas, keeps them in an in-memory store, and relays each call request to a Zoho CRM bridge.
- **The browser page.** It holds the two forms, with their own client-side checks.
- **The WhatsApp relay.** It receives WhatsApp messages through Twilio or Meta webhooks. It decides whether a message is an Instagram ad lead and parses the lead out of the text. Then it submits the lead to the landing page's call request endpoint, replies to the sender, and talks to Zoho CRM.

This project models the decision logic of those parts. It proves what each decision promises.

One module per source file:

| module | source |
|---|---|
| `Schema` (`schema.dfy`) | `shared/schema.ts` |
| `Storage` (`storage.dfy`) | `server/storage.ts` |
| `Routes` (`routes.dfy`) | `server/routes.ts` |
| `EmailNotification` (`email.dfy`) | `server/email.ts` |
| `AdTracker` (`ad_tracker.dfy`) | `whatsapp-integration/src/services/ad-tracker.ts` |
| `WhatsAppService` (`lead_parser.dfy`) | `whatsapp-integration/src/services/whatsapp.ts` |
| `WhatsAppWebhook` (`webhook.dfy`) | `whatsapp-integration/src/routes/whatsapp.ts` |
| `ZohoCrm` (`zoho_crm.dfy`) | `whatsapp-integration/src/services/zoho-crm.ts` |
| `LandingPage` (`home.dfy`) | `client/src/pages/home.tsx` |

Shared modules and the cross-component module:

- `Wrappers` holds `Option` (JavaScript's `undefined`/`null`) and `Result` (a thrown error).
- `Text` holds ASCII character classes and `toLowerCase`. It also has the string builtins the source uses: `includes`, `indexOf`, `replace`, `trim`, `split`, `join`.
- `Integration` connects the components at the call request endpoint.

How the code's form is kept:

- Objects whose methods update fields in place are classes with those fields: `MemStorage`, the `ZohoCrmService` token cache, and the page component's state, `HomePage`. Request handlers that run step by step against them are methods.
- Regular expressions are explicit recognisers over ASCII strings.
- `parseLeadMessage` fills its record field by field, with a loop over the name patterns that stops early and a loop that pushes interests. It is a method with those loops, proved against the function `LeadOf`.
- Clocks, identifiers, network calls and the foreign validators (zod's `.email()`, libphonenumber's `isValidPhoneNumber`) are parameters.

Three behaviours of the code that a reader may not expect:

- The call request schema has no `name` field and requires a valid `email`.
- `findLeadByPhone` lets a token refresh failure propagate, because the refresh is outside its `try`.
- The Meta verification handshake compares the token with the configured secret even when no secret is configured (see Findings).

The cross-component consequence is reproduced, not fixed:

- The page always posts `email: ""` (`client/src/pages/home.tsx:171-175`).
- The relay posts `email: ""` when no email was extracted (`whatsapp-integration/src/services/ruka-calling.ts:31`).
- The schema requires a valid email (`shared/schema.ts:43`).
- So those submissions are answered 400 and nothing is stored. `Integration.SubmitCallForm` and `Integration.RelayTwilioLead` show it end to end.

## Model

| member | source | states |
|---|---|---|
| Schema.PhoneIssues | shared/schema.ts:40-42 | At most two issues, all on `phoneNumber`; none exactly when the number has at least 10 characters and matches the pattern. |
| Schema.PhoneDigitCount | shared/schema.ts:40-42 | A phone number passes iff it is '+' and 9–15 digits, or 10–15 digits with no '+'; the first digit is nonzero. The length check counts the '+'. |
| Schema.PhoneShape | shared/schema.ts:40-42 | Every accepted phone number has 10 to 16 characters. It is digits after an optional leading '+', and its first digit is 1–9. |
| Schema.ShortPhoneReportsLengthFirst | shared/schema.ts:41-42 | A number shorter than 10 reports the length message first, and reports both messages when it is also malformed. |
| Schema.StringField | shared/schema.ts:40-43 | `z.string()` on a key: the string when present and a string; otherwise exactly one issue on that key. |
| Schema.ParseEmailSubscription | shared/schema.ts:30-34 | Succeeds iff `email` is a string the email check accepts, and yields exactly that email; otherwise one issue on `email`. |
| Schema.ParseCallRequest | shared/schema.ts:36-44 | Succeeds iff the phone number passes and the email is accepted, and yields exactly those two fields; otherwise 1–3 issues, the first on a schema key. |
| Schema.ShortPhoneReportedFirst | shared/schema.ts:40-41 | A string phone number shorter than 10 makes the parse fail, and its first issue is the length message on `phoneNumber`. |
| Schema.CallRequestEmailIssue | shared/schema.ts:43 | The email message is among the issues iff the body's email is a string the `.email()` check refuses. |
| Schema.EmailSubscriptionReadsOnlyEmail | shared/schema.ts:30-34 | Two bodies that agree on `email` parse alike, whatever else they contain. |
| Schema.CallRequestIgnoresOtherKeys | shared/schema.ts:36-44 | Setting any key other than `phoneNumber` and `email` (such as `name`) leaves the parse unchanged. |
| Schema.CallRequestRejectsEmptyEmail | shared/schema.ts:43 | With any email check that requires an '@', an empty email is rejected with the email message, whatever the phone number. |
| Storage.JsMap.Get | server/storage.ts:26 | `Map.get`: present iff the key was set, and then the stored value. |
| Storage.JsMap.Set | server/storage.ts:38 | `Map.set`: the entry is replaced; a new key goes last and an existing key keeps its place; keys stay distinct. |
| Storage.JsMap.Values | server/storage.ts:30 | `values()` lists one value per key, in key insertion order. |
| Storage.ValuesAreEntries | server/storage.ts:30 | A value is listed iff it is stored under some key. |
| Storage.SetNewKeyGrows | server/storage.ts:64 | Setting a fresh key appends exactly its value to the listing. |
| Storage.InsertNewestFirst | server/storage.ts:70 | Inserting into a newest-first list keeps it newest-first and adds exactly that element. |
| Storage.SortNewestFirst | server/storage.ts:69-70 | The comparator sort yields a newest-first permutation of its input. |
| Storage.Recent | server/storage.ts:68-72 | At most 100 requests (all when fewer), newest first. They are drawn from the stored ones, and none left out is newer than the last returned. |
| Storage.MemStorage.constructor | server/storage.ts:19-23 | Three empty maps. |
| Storage.MemStorage.GetUser | server/storage.ts:25-27 | The user stored under the id, if any. |
| Storage.MemStorage.GetUserByUsername | server/storage.ts:29-33 | None iff no stored user has the username; otherwise a stored user with it. |
| Storage.MemStorage.CreateUser | server/storage.ts:35-40 | Stores the user under its fresh id and changes nothing else. |
| Storage.MemStorage.CreateEmailSubscription | server/storage.ts:42-51 | Stores the subscription under its email (replacing any), stamped with the given time; nothing else changes. |
| Storage.MemStorage.GetEmailSubscription | server/storage.ts:53-55 | The subscription stored under that email, if any. |
| Storage.MemStorage.CreateCallRequest | server/storage.ts:57-66 | Stores the request under its fresh id with the given time; nothing else changes. |
| Storage.MemStorage.GetRecentCallRequests | server/storage.ts:68-72 | `Recent` of the stored requests in insertion order: min(n, 100) of them, each a stored request. |
| Storage.SubscribeThenLookUp | server/storage.ts:42-55 | After a subscription is created, looking its email up returns that very record. |
| Storage.CreateCallRequestAddsOne | server/storage.ts:57-66 | A request under a fresh id adds exactly one stored request, at the end of the listing. |
| Routes.LeadEnvelope | server/routes.ts:18-31 | The JSON-RPC envelope's fixed values, the given phone, `id` = now, and `email` left undefined exactly when empty. |
| Routes.CreateZohoLead | server/routes.ts:11-55 | Never throws: the parsed result iff the response is ok and its body is JSON; otherwise null. |
| Routes.FirstMessageOr | server/routes.ts:81 | The first issue's message when present and non-empty, else the fallback. |
| Routes.CatchEmailSubscription | server/routes.ts:78-88 | A validation error answers 400 with its issues; anything else answers 500 with the fixed message. |
| Routes.CatchCallRequest | server/routes.ts:119-129 | A validation error answers 400 with its issues; anything else answers 500 with the fixed message. |
| Routes.PostEmailSubscription | server/routes.ts:60-89 | 400 with the issues and no change when invalid; 409 and no change for a stored email; otherwise 201 and the subscription appended. |
| Routes.PostCallRequest | server/routes.ts:92-130 | 400 and nothing stored or relayed when invalid; otherwise the request is stored before the CRM call, and the answer is 201 whatever the CRM returned. |
| Routes.SubscribeTwice | server/routes.ts:64-77 | The same new email twice gives 201 then 409, and exactly one subscription for it. |
| EmailNotification.ParseInt | server/email.ts:10 | A number is read only from text that has a digit, and a negative one only from text with a '-'. |
| EmailNotification.ParseIntDecimal | server/email.ts:10 | `parseInt` reads back any decimal rendering of a natural number. |
| EmailNotification.CreateTransporter | server/email.ts:5-30 | None iff the user or password is unset or empty. Otherwise the host defaults to smtp.gmail.com, the port is `parseInt` of SMTP_PORT or "587", `secure` iff the port is 465, and TLS skips certificate checks. |
| EmailNotification.TransportPort | server/email.ts:9-21 | Without SMTP_PORT the port is 587 and the connection is not secure; SMTP_PORT "n" gives port n. |
| EmailNotification.StripTags | server/email.ts:50 | The `/<[^>]*>/g` removal never lengthens the text and introduces no character. |
| EmailNotification.StripTagsTagFree | server/email.ts:50 | The stripped text has no '<' followed later by '>'. |
| EmailNotification.StripTagsKeepsTagFree | server/email.ts:50 | Text without a tag is left unchanged. |
| EmailNotification.StripTagsIdempotent | server/email.ts:50 | Stripping twice equals stripping once. |
| EmailNotification.StripTagsWithoutBracket | server/email.ts:50 | Text without '<' is left unchanged. |
| EmailNotification.SendEmailNotification | server/email.ts:32-60 | Never throws. Unconfigured means nothing sent and no mail attempted. Configured means one mail to the recipient (default hi@ruka.live) with the HTML and its stripped text, and the result is the delivery outcome. |
| EmailNotification.SentTextIsTagFree | server/email.ts:45-51 | The text part of any attempted mail contains no tag. |
| EmailNotification.FormatEmailSubscriptionNotification | server/email.ts:62-77 | The HTML contains the email after its label and the date after its label; its length is the fixed text plus the two values. |
| EmailNotification.EmailParagraph | server/email.ts:91 | The email paragraph appears, with the email, exactly when the email is non-empty; otherwise it is empty. |
| EmailNotification.FormatCallRequestNotification | server/email.ts:79-103 | The HTML contains the name, phone and date after their labels, and the email paragraph exactly when an email is given; its length is the fixed text plus the values. |
| AdTracker.IndicatorsLength | whatsapp-integration/src/services/ad-tracker.ts:11-44 | Every indicator has at least five characters. |
| AdTracker.IsFromInstagramAd | whatsapp-integration/src/services/ad-tracker.ts:5-57 | A message classified as an ad has at least five characters (so an empty message never is). |
| AdTracker.AdCaseInsensitive | whatsapp-integration/src/services/ad-tracker.ts:8 | Classification is the same for a message and its lower-cased form. |
| AdTracker.AdMonotone | whatsapp-integration/src/services/ad-tracker.ts:47-49 | Any text that contains an ad message is itself an ad message. |
| AdTracker.IndicatorIsAd | whatsapp-integration/src/services/ad-tracker.ts:11-49 | Each indicator on its own, in any letter case, is an ad message. |
| AdTracker.MatchKeyed | whatsapp-integration/src/services/ad-tracker.ts:81 | None iff the keyed pattern matches nowhere. Otherwise the id after the leftmost match: non-empty, made only of id characters, and as long as they go. |
| AdTracker.CampaignDetailsOf | whatsapp-integration/src/services/ad-tracker.ts:61-93 | Platform Instagram, no keyword, a non-empty campaign, and an ad set, when present, that is a non-empty run of id characters. |
| AdTracker.GetCampaignDetails | whatsapp-integration/src/services/ad-tracker.ts:61-93 | The step-by-step updates give `CampaignDetailsOf(message)`: platform Instagram and no keyword. |
| AdTracker.CampaignRules | whatsapp-integration/src/services/ad-tracker.ts:71-84 | The campaign is never empty, an explicit campaign id always wins, and the campaign is "Unknown" exactly when neither an id nor a code names one. |
| AdTracker.CodePriority | whatsapp-integration/src/services/ad-tracker.ts:72-78 | Without an id, the December code wins over the other codes. |
| AdTracker.CampaignIdExample | whatsapp-integration/src/services/ad-tracker.ts:81-84 | "Campaign_Q4 now" yields campaign id "Q4": the key matches in any case and the id stops at the space. |
| AdTracker.DetectAdSource | whatsapp-integration/src/services/ad-tracker.ts:96-107 | Organic/Direct iff the message is not an ad; otherwise the campaign details. |
| AdTracker.DetectAdSourceCaseInsensitive | whatsapp-integration/src/services/ad-tracker.ts:96-107 | Whether a message is organic does not depend on letter case; an organic answer never names Instagram. |
| WhatsAppService.ExtractEmail | whatsapp-integration/src/services/whatsapp.ts:36-39 | A match exists iff the pattern matches somewhere; it is the text at the leftmost position where it matches. |
| WhatsAppService.EmailMatchLongest | whatsapp-integration/src/services/whatsapp.ts:36 | No email-shaped string starting where the pattern matches is longer than the match. |
| WhatsAppService.ExtractedEmailLongest | whatsapp-integration/src/services/whatsapp.ts:36-39 | The extracted email is the longest email-shaped string at its starting position. |
| WhatsAppService.ExtractedEmailShaped | whatsapp-integration/src/services/whatsapp.ts:36 | A match has the shape local@domain.tld over the pattern's character classes. |
| WhatsAppService.EmailFoundWhenPresent | whatsapp-integration/src/services/whatsapp.ts:36-39 | If any email-shaped substring occurs, an email is extracted, starting no later than that substring. |
| WhatsAppService.PhraseCapture | whatsapp-integration/src/services/whatsapp.ts:43 | A capture after "my name is", "i am" or "this is" is non-empty and only letters and whitespace. |
| WhatsAppService.CaptureWhenSpaced | whatsapp-integration/src/services/whatsapp.ts:43 | After a phrase, a capture exists iff one or more whitespace characters are followed by a letter or whitespace. |
| WhatsAppService.CaptureBounds | whatsapp-integration/src/services/whatsapp.ts:43 | The capture starts where the whitespace after the phrase ends and runs over every following letter and whitespace. When no letter follows, it is the last whitespace character alone. |
| WhatsAppService.PhraseCaptureFound | whatsapp-integration/src/services/whatsapp.ts:43 | A capture comes from a phrase, in any letter case, at the leftmost position where a phrase is followed by a capture. |
| WhatsAppService.PhraseCaptureWhenPresent | whatsapp-integration/src/services/whatsapp.ts:43 | A phrase followed by whitespace and then a letter or whitespace always gives a capture. |
| WhatsAppService.PhraseCaptureOccurs | whatsapp-integration/src/services/whatsapp.ts:43 | The phrase capture is text of the message. |
| WhatsAppService.CapitalisedCapture | whatsapp-integration/src/services/whatsapp.ts:44 | Matches iff the message starts with an upper-case letter followed by a lower-case one. The capture is the longest prefix made of capitalised words separated by whitespace; with no match, no prefix has that shape. |
| WhatsAppService.CapturedRun | whatsapp-integration/src/services/whatsapp.ts:44 | The greedy scan stops at a run of capitalised words that no longer prefix extends. |
| WhatsAppService.CapitalisedCaptureTrimmed | whatsapp-integration/src/services/whatsapp.ts:44-50 | Trimming a capitalised capture leaves it unchanged. |
| WhatsAppService.NameCapture | whatsapp-integration/src/services/whatsapp.ts:42-48 | Each pattern's capture is non-empty, made of letters and whitespace, and text of the message. The capitalised pattern's capture is a prefix made of capitalised words. |
| WhatsAppService.NameOf | whatsapp-integration/src/services/whatsapp.ts:30-53 | A phrase capture, trimmed, is the name (possibly empty). Without a phrase capture, the capitalised capture (two or more characters) is the name, and without either the sender's name or "Unknown". An empty name comes only from a phrase capture. |
| WhatsAppService.NameFromPatternShape | whatsapp-integration/src/services/whatsapp.ts:47-53 | A name taken from a pattern is letters and spaces with no outer space; a capitalised name has at least two characters. |
| WhatsAppService.GreetingIsCapitalised | whatsapp-integration/src/services/whatsapp.ts:44 | "Hi, call me" yields the name "Hi". |
| WhatsAppService.PhraseNameCanBeEmpty | whatsapp-integration/src/services/whatsapp.ts:43-50 | "i am  !" yields the empty name, and the sender's name is not used. |
| WhatsAppService.InterestsUpTo | whatsapp-integration/src/services/whatsapp.ts:56-69 | Category order is kept, only categories occur, and a category occurs iff one of its keywords is mentioned. |
| WhatsAppService.InterestsAreFilteredCategories | whatsapp-integration/src/services/whatsapp.ts:56-69 | The interests have no duplicates and are the mentioned categories, in order. |
| WhatsAppService.InterestsLength | whatsapp-integration/src/services/whatsapp.ts:64-69 | At most one tag per category. |
| WhatsAppService.AllMentioned | whatsapp-integration/src/services/whatsapp.ts:56-69 | When every category is mentioned, the interests are all categories in order. |
| WhatsAppService.ApplyNamePatterns | whatsapp-integration/src/services/whatsapp.ts:47-53 | The loop with `break` settles on `NameOf`: the first pattern's trimmed capture, else the sender's name, else "Unknown". |
| WhatsAppService.CollectInterests | whatsapp-integration/src/services/whatsapp.ts:64-69 | The push loop produces exactly `InterestsUpTo(message, 5)`. |
| WhatsAppService.LeadOf | whatsapp-integration/src/services/whatsapp.ts:28-72 | The lead keeps the message and timestamp; its name, email and interests are `NameOf`, `ExtractEmail` and `InterestsUpTo` of the message, so the lemmas about them apply; its email is text of the message; its interests are distinct categories; an empty name comes only from a phrase capture. |
| WhatsAppService.ParseLeadMessage | whatsapp-integration/src/services/whatsapp.ts:28-72 | The record filled in place equals `LeadOf`, keeping the message and timestamp. |
| WhatsAppService.SendReply | whatsapp-integration/src/services/whatsapp.ts:75-98 | Skipped iff the Twilio client is not configured; otherwise one message from the configured number to the recipient, sent or failed as delivered. |
| WhatsAppService.SendMetaReply | whatsapp-integration/src/services/whatsapp.ts:101-134 | Skipped iff the token or phone id is missing. Otherwise one Graph API message to the phone id's URL with the bearer token, sent or failed as delivered. |
| WhatsAppWebhook.SubmittedName | whatsapp-integration/src/routes/whatsapp.ts:52 | Never empty: the parsed name when non-empty, else the profile name, else "Instagram Lead". |
| WhatsAppWebhook.SubmittedNameFallsBackToProfile | whatsapp-integration/src/routes/whatsapp.ts:47-52 | When no pattern names the lead, the submitted name is the profile name, or "Unknown" without one. |
| WhatsAppWebhook.TwilioWebhook | whatsapp-integration/src/routes/whatsapp.ts:22-75 | Always 200 "OK". A submission is made iff the body is an ad and `From` is present, with the stripped number, the lead's name and email. A reply follows iff the submission succeeded. |
| WhatsAppWebhook.TwilioPhoneDropsPrefix | whatsapp-integration/src/routes/whatsapp.ts:44 | "whatsapp:<n>" is submitted as "<n>". |
| WhatsAppWebhook.MetaWebhook | whatsapp-integration/src/routes/whatsapp.ts:78-137 | Always 200 "OK". A submission is made iff messages are present, the first message, contact and profile exist, and the text is an ad. It carries the sender's number, the name and the email. A reply follows iff the submission succeeded. |
| WhatsAppWebhook.MessageText | whatsapp-integration/src/routes/whatsapp.ts:95 | The text body when present, otherwise the empty string. |
| WhatsAppWebhook.MissingTextIsNotAd | whatsapp-integration/src/routes/whatsapp.ts:95 | A Meta message without text is never an ad lead. |
| WhatsAppWebhook.VerifyWebhookAsWritten | whatsapp-integration/src/routes/whatsapp.ts:140-153 | 200 with the challenge iff the mode is set and the token equals the configured one (both may be undefined); otherwise 403 "Forbidden". |
| WhatsAppWebhook.UnconfiguredTokenVerifies | whatsapp-integration/src/routes/whatsapp.ts:141-146 | With no token configured, a request without a token is verified. |
| WhatsAppWebhook.VerifyWebhook | whatsapp-integration/src/routes/whatsapp.ts:140-153 | 200 with the challenge iff the mode is set, a token is configured and the request's token equals it; otherwise 403. |
| WhatsAppWebhook.VerifyWebhookAgrees | whatsapp-integration/src/routes/whatsapp.ts:146 | With a token configured the corrected handshake answers as written; without one it refuses everything. |
| ZohoCrm.IssuedTokenLastsAnHour | whatsapp-integration/src/services/zoho-crm.ts:15-34 | A refreshed token is served from the cache for exactly the following hour. |
| ZohoCrm.FirstName | whatsapp-integration/src/services/zoho-crm.ts:50 | Non-empty and space-free; a one-word name is itself, a missing name "Unknown". |
| ZohoCrm.LastName | whatsapp-integration/src/services/zoho-crm.ts:51 | Non-empty; "Lead" for a one-word or missing name. |
| ZohoCrm.NameSplitsAtFirstSpace | whatsapp-integration/src/services/zoho-crm.ts:50-51 | The first name is the text before the first space and the last name everything after it, each with its default when empty. |
| ZohoCrm.NameRoundTrip | whatsapp-integration/src/services/zoho-crm.ts:50-51 | A name with a non-empty first word and remainder is rebuilt exactly as first + " " + last. |
| ZohoCrm.NameExample | whatsapp-integration/src/services/zoho-crm.ts:50-51 | "Asha Rao Kumar" splits into "Asha" and "Rao Kumar". |
| ZohoCrm.CustomerInterest | whatsapp-integration/src/services/zoho-crm.ts:65 | Never empty; "General Inquiry" for an absent or empty list. |
| ZohoCrm.CustomerInterestLists | whatsapp-integration/src/services/zoho-crm.ts:65 | Non-empty interests are joined with ", ", and each appears in the field. |
| ZohoCrm.ZohoLeadOf | whatsapp-integration/src/services/zoho-crm.ts:48-73 | The fixed values (New, score 0, Pending, WhatsApp Integration), the source, campaign and platform defaults, the email or null, the description fallback, the first and last name split and the joined interests, and the passed-through fields. |
| ZohoCrm.BareLeadDefaults | whatsapp-integration/src/services/zoho-crm.ts:50-65 | A lead with only a phone number gets every default. |
| ZohoCrm.LeadUpdateOf | whatsapp-integration/src/services/zoho-crm.ts:106-118 | "Qualified" iff qualified, else "Not Qualified"; always "Completed"; the other fields passed through. |
| ZohoCrm.ConvertRequestOf | whatsapp-integration/src/services/zoho-crm.ts:144-155 | `convert_to` defaults to Contacts; a deal at stage Qualification iff `createDeal`, else null. |
| ZohoCrm.SearchCriteria | whatsapp-integration/src/services/zoho-crm.ts:207 | The phone appears verbatim inside `(Phone:equals:…)`. |
| ZohoCrm.ZohoCrmService.constructor | whatsapp-integration/src/services/zoho-crm.ts:5-11 | No token, expired now, API base from ZOHO_API_URL or the default. |
| ZohoCrm.ZohoCrmService.RefreshAccessToken | whatsapp-integration/src/services/zoho-crm.ts:14-42 | A cached, unexpired token is returned with no request. Otherwise one request: success stores the token until now + 3 600 000; failure leaves the cache unchanged and fails. |
| ZohoCrm.ZohoCrmService.RefreshTwice | whatsapp-integration/src/services/zoho-crm.ts:15-34 | A second operation within the hour reuses the token without a request. |
| ZohoCrm.ZohoCrmService.CreateLead | whatsapp-integration/src/services/zoho-crm.ts:45-100 | A refresh failure propagates before any call. Otherwise one POST with the token, whose body is the one-lead `data` array of `ZohoLeadOf` and the triggers workflow, approval and blueprint, giving the first record, or failing when the call fails or returns no record. The token cache ends as the refresh leaves it, and that token authorises the call. |
| ZohoCrm.ZohoCrmService.UpdateLeadQualification | whatsapp-integration/src/services/zoho-crm.ts:103-138 | A refresh failure propagates; otherwise one PUT of `LeadUpdateOf`, returning the response data or rethrowing. The token cache ends as the refresh leaves it, and that token authorises the call. |
| ZohoCrm.ZohoCrmService.ConvertLead | whatsapp-integration/src/services/zoho-crm.ts:141-175 | A refresh failure propagates; otherwise one POST of `ConvertRequestOf` to the lead's convert URL, returning the data or rethrowing. The token cache ends as the refresh leaves it, and that token authorises the call. |
| ZohoCrm.ZohoCrmService.GetLeadDetails | whatsapp-integration/src/services/zoho-crm.ts:178-196 | A refresh failure propagates. Otherwise one GET, giving the first record or none; a failed call or missing records rethrow. The token cache ends as the refresh leaves it, and that token authorises the call. |
| ZohoCrm.ZohoCrmService.FindLeadByPhone | whatsapp-integration/src/services/zoho-crm.ts:199-220 | Only a refresh failure propagates. After the search, the result is the first match, or null when there is none or the call fails. The token cache ends as the refresh leaves it, and that token authorises the call. |
| LandingPage.ValidateEmail | client/src/pages/home.tsx:120-123 | An accepted address has at least five characters and an '@', and neither begins nor ends with whitespace. |
| LandingPage.EmailFromParts | client/src/pages/home.tsx:121 | Every L@A.B with non-empty parts free of whitespace and '@' is accepted. |
| LandingPage.EmailParts | client/src/pages/home.tsx:121 | Every accepted email is such an L@A.B. |
| LandingPage.ValidEmailHasOneAt | client/src/pages/home.tsx:121 | An accepted email has exactly one '@' and no whitespace. |
| LandingPage.EmailExamples | client/src/pages/home.tsx:120-123 | "a@b.co" is accepted and "a@b@c.d" refused. |
| LandingPage.NextPlaceholder | client/src/pages/home.tsx:50 | The next index is in [0, 5): the next one, wrapping to 0 after the last. |
| LandingPage.PlaceholderCycles | client/src/pages/home.tsx:48-53 | After k ticks the index is (p + k) mod 5, so it returns after exactly five. |
| LandingPage.FailureToast | client/src/pages/home.tsx:87-93 | A destructive toast with the error message, or "Please try again later." when it has none. |
| LandingPage.HomePage.constructor | client/src/pages/home.tsx:24-31 | The initial form, validation, dialog and placeholder state. |
| LandingPage.HomePage.TickPlaceholder | client/src/pages/home.tsx:48-53 | The interval step keeps the index in [0, 5). |
| LandingPage.HomePage.HandleEmailSubmit | client/src/pages/home.tsx:125-136 | Submits iff the trimmed input is valid, and then exactly the trimmed input; the valid flag records the outcome. |
| LandingPage.HomePage.HandleEmailChange | client/src/pages/home.tsx:138-143 | Stores the new value and resets the valid flag to true. |
| LandingPage.HomePage.OnEmailSubscribed | client/src/pages/home.tsx:71-86 | The toast tells whether the email was already on the list; the field is emptied. |
| LandingPage.HomePage.HandleCallFormSubmit | client/src/pages/home.tsx:145-176 | Checks, in order, a non-blank name, a phone, and a valid phone, and stops at the first failure. Only phone failures set the phone error. On success it submits the trimmed name, the phone and an empty email. |
| LandingPage.HomePage.HandleCallFormChange | client/src/pages/home.tsx:178-181 | Only the named field changes, and the phone error is cleared only for the phone field. |
| LandingPage.HomePage.OnCallRequested | client/src/pages/home.tsx:101-111 | The dialog closes and the form and phone error are emptied. |
| Integration.ClientCallBody | client/src/pages/home.tsx:97-99 | The posted body has exactly `name`, `phoneNumber` and `email`. |
| Integration.RelayCallBody | whatsapp-integration/src/services/ruka-calling.ts:26-32 | The relay posts the name, the email or "", and the phone number when defined. |
| Integration.ClientCallRequestRejected | client/src/pages/home.tsx:171-175 | Every call request the form submits fails the schema on its email. |
| Integration.RelayWithoutEmailRejected | whatsapp-integration/src/services/ruka-calling.ts:31 | A relay submission without an extracted email is never accepted. |
| Integration.SubmitCallForm | client/src/pages/home.tsx:145-176 | Whenever the form submits, the server answers 400, and nothing is stored or relayed. |
| Integration.RelayTwilioLead | whatsapp-integration/src/routes/whatsapp.ts:50-62 | A Twilio ad lead is thanked only when its submission is accepted, which needs an email in its message. |

## Left out

- Unicode: `toLowerCase` and the regex class `\s` are modelled on ASCII only. Lengths count characters rather than UTF-16 code units.
- Rendering: all JSX, styling and animation are left out, including the dialog's open button, `RukaAvatar` and the agent builder page. The other landing page variants repeat `home.tsx`'s logic verbatim.
- Network and mail I/O are outcomes given as parameters: fetch, axios, the Twilio client and nodemailer. `submitToRuka` is the webhook parameter `submit` (it never throws). `sendTemplateMessage` is not modelled: it only forwards to the same APIs.
- Server wiring is not modelled: Express setup, `whatsapp-integration/src/index.ts`, `routes/zoho.ts`, `services/initialization.ts`, the lazy service initialisation, and logging.
- Concurrency: handlers run one at a time; interleaving at `await` points is not modelled.
- Clocks and identifiers (`Date.now()`, `new Date()`, `toISOString`, `toLocaleString`, `randomUUID`) are parameters.
- Foreign validators: zod's `.email()` and libphonenumber's `isValidPhoneNumber` are predicates given as parameters. The empty-email rejection assumes only that `.email()` needs an '@'.
- Routes.PostEmailSubscription: the 500 answer is never produced, because the in-memory store never throws; `CatchEmailSubscription` states that answer on its own.
- Routes.PostCallRequest: the 500 answer is likewise never produced; `CatchCallRequest` states it.
- Routes.PostCallRequest: one parameter `now` stands for both clock reads, the stored `createdAt` (`server/storage.ts:62`) and the envelope `id` (`server/routes.ts:31`); the model treats them as equal.
- EmailNotification.SendEmailNotification: the `info` that `sendMail` returns is not modelled. A `from` of "noreply@ruka.live" cannot occur, because sending needs `EMAIL_USER`.
- ZohoCrm.ZohoCrmService.RefreshAccessToken: the issued token is a string. A token response without `access_token`, which would store `undefined`, is not modelled.
- ZohoCrm.ZohoCrmService.CreateLead: records are opaque values, so the first record stands for its `details` member.
- WhatsAppWebhook.MetaWebhook: a reply to a message without `from` is addressed to "" rather than `undefined`.
- Request fields that are not strings are not modelled: repeated query parameters arrive as arrays, and JSON bodies can carry numbers where text is expected.
- LandingPage.HomePage.HandleCallFormChange: a key other than `name` and `phoneNumber` is added to the form object, where nothing reads it. The model does not represent it.
- Toasts are returned values; the toast queue is not modelled.
- The page's `currentPrompt` state (`client/src/pages/home.tsx:32`) only feeds the rendered prompt box; it has no field in `HomePage`.

## Findings

| source | as written | input that shows it | evidently intended | confidence | as-written member | corrected member |
|---|---|---|---|---|---|---|
| whatsapp-integration/src/routes/whatsapp.ts:141-146 | `mode && token === verifyToken` also passes when `WHATSAPP_VERIFY_TOKEN` is unset and the request sends no `hub.verify_token` (`undefined === undefined`) | `GET /meta?hub.mode=subscribe&hub.challenge=c` with no verify token configured answers 200 with `c` (`UnconfiguredTokenVerifies`) | the handshake passes only against a configured secret | medium, not executed | WhatsAppWebhook.VerifyWebhookAsWritten | WhatsAppWebhook.VerifyWebhook |
