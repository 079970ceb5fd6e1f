/** The relay's Zoho CRM client (whatsapp-integration/src/services/zoho-crm.ts):
    an OAuth access token cached with an expiry, and the payloads of the lead
    operations. Time is an integer number of milliseconds (`Date.now()` is
    the parameter `now`); the token endpoint and the CRM API are outcomes
    given as parameters; `new Date().toISOString()` is the parameter `date`. */
module ZohoCrm {
  import opened Wrappers
  import opened Text

  const DefaultApiUrl := "https://www.zohoapis.in/crm/v2"
  const TokenUrl := "https://accounts.zoho.in/oauth/v2/token"
  /** A refreshed token is trusted for one hour. */
  const TokenLifetime := 3600000

  /** What the token endpoint gives back: the issued `access_token`, or a failure (axios throws). */
  datatype RefreshOutcome = TokenIssued(token: string) | RefreshFailed

  /** What a CRM API call gives back: the response's `data.data` member
      (records, each an opaque value, possibly absent), or a failure. For
      `updateLeadQualification` and `convertLead`, which hand back the whole
      response body (`response.data`), `records` stands for that whole body. */
  datatype ApiOutcome = ApiOk(records: Option<seq<string>>) | ApiError

  /** Why an operation failed: the token refresh or the API call threw. */
  datatype Failure = TokenRefreshFailed | ApiCallFailed

  /** `this.accessToken && this.tokenExpiry > new Date()` */
  predicate CacheHit(token: string, expiry: int, now: int) {
    token != "" && expiry > now
  }

  /** A token issued at `issuedAt` is served from the cache for the next hour and not after. */
  lemma IssuedTokenLastsAnHour(token: string, issuedAt: int, t: int)
    requires token != "" && issuedAt <= t
    ensures CacheHit(token, issuedAt + TokenLifetime, t) <==> t < issuedAt + TokenLifetime
  {
  }

  /** The fields of `leadData` that `createLead` reads. */
  datatype LeadInput = LeadInput(
    name: Option<string>, phone: Option<string>, email: Option<string>, leadSource: Option<string>,
    originalMessage: Option<string>, message: Option<string>, whatsAppId: Option<string>,
    campaignSource: Option<string>, adPlatform: Option<string>, interests: Option<seq<string>>,
    utmSource: Option<string>, utmCampaign: Option<string>, utmMedium: Option<string>)

  /** The record `createLead` posts, one member per Zoho field. */
  datatype ZohoLead = ZohoLead(
    firstName: string, lastName: string, phone: Option<string>, email: Option<string>,
    leadSource: string, leadStatus: string, description: Option<string>, whatsAppId: Option<string>,
    campaignSource: string, adPlatform: string, leadQualityScore: int, firstContactDate: string,
    messageContent: Option<string>, customerInterest: string,
    utmSource: Option<string>, utmCampaign: Option<string>, utmMedium: Option<string>,
    conversionSource: string, autoCallStatus: string)

  /** `name?.split(' ')[0] || 'Unknown'` */
  function FirstName(name: Option<string>): (r: string)
    ensures r != "" && ' ' !in r
    ensures name.Some? && IndexOf(name.value, ' ').None? && name.value != "" ==> r == name.value
  {
    if name.None? then "Unknown"
    else
      SplitFirstAndRest(name.value, ' ');
      var first := Split(name.value, ' ')[0];
      if first == "" then "Unknown" else first
  }

  /** `name?.split(' ').slice(1).join(' ') || 'Lead'` */
  function LastName(name: Option<string>): (r: string)
    ensures r != ""
    ensures name.Some? && IndexOf(name.value, ' ').None? ==> r == "Lead"
  {
    if name.None? then "Lead"
    else
      SplitFirstAndRest(name.value, ' ');
      var rest := Join(Split(name.value, ' ')[1..], " ");
      if rest == "" then "Lead" else rest
  }

  /** The name splits at its first space: the first name is the text before
      it and the last name everything after it, each with its default when empty. */
  lemma NameSplitsAtFirstSpace(name: string)
    ensures IndexOf(name, ' ').Some? ==>
      var i := IndexOf(name, ' ').value;
      && FirstName(Some(name)) == (if i == 0 then "Unknown" else name[..i])
      && LastName(Some(name)) == (if i + 1 == |name| then "Lead" else name[i + 1..])
    ensures IndexOf(name, ' ').None? ==>
      FirstName(Some(name)) == (if name == "" then "Unknown" else name) && LastName(Some(name)) == "Lead"
  {
    SplitFirstAndRest(name, ' ');
  }

  /** A name with a non-empty first word and a non-empty remainder is
      rebuilt exactly from its first and last names. */
  lemma NameRoundTrip(name: string)
    requires IndexOf(name, ' ').Some?
    requires 0 < IndexOf(name, ' ').value < |name| - 1
    ensures FirstName(Some(name)) + " " + LastName(Some(name)) == name
  {
    var i := IndexOf(name, ' ').value;
    NameSplitsAtFirstSpace(name);
    AroundIndex(name, i);
    assert [name[i]] == " ";
  }

  /** For instance, "Asha Rao Kumar" becomes "Asha" and "Rao Kumar". */
  lemma NameExample()
    ensures FirstName(Some("Asha Rao Kumar")) == "Asha" && LastName(Some("Asha Rao Kumar")) == "Rao Kumar"
  {
    var name := "Asha Rao Kumar";
    assert name[..4] == "Asha" && name[5..] == "Rao Kumar";
    assert IndexOf(name, ' ') == Some(4) by {
      assert name[4] == ' ' && ' ' !in name[..4];
      IndexOfFirst(name, ' ', 4);
    }
    NameSplitsAtFirstSpace(name);
  }

  /** `interests?.join(', ') || 'General Inquiry'` */
  function CustomerInterest(interests: Option<seq<string>>): (r: string)
    ensures r != ""
    ensures interests.None? || interests.value == [] ==> r == "General Inquiry"
  {
    if interests.None? then "General Inquiry"
    else
      var joined := Join(interests.value, ", ");
      if joined == "" then "General Inquiry" else joined
  }

  /** A list of non-empty interests is joined, each appearing in the field;
      only an absent or empty list gives the generic interest. */
  lemma CustomerInterestLists(interests: seq<string>)
    requires |interests| > 0 && forall k :: 0 <= k < |interests| ==> interests[k] != ""
    ensures CustomerInterest(Some(interests)) == Join(interests, ", ")
    ensures forall k :: 0 <= k < |interests| ==> Contains(CustomerInterest(Some(interests)), interests[k])
  {
    JoinContainsParts(interests, ", ");
    assert Contains(Join(interests, ", "), interests[0]);
    ContainsLength(Join(interests, ", "), interests[0]);
  }

  /** Every part of a joined list occurs in the result. */
  lemma {:induction false} JoinContainsParts(parts: seq<string>, sep: string)
    ensures forall k :: 0 <= k < |parts| ==> Contains(Join(parts, sep), parts[k])
    decreases |parts|
  {
    if |parts| == 1 {
      assert OccursAt(parts[0], parts[0], 0);
    } else if |parts| > 1 {
      var tail := Join(parts[1..], sep);
      JoinContainsParts(parts[1..], sep);
      assert Join(parts, sep) == parts[0] + (sep + tail);
      forall k | 0 <= k < |parts|
        ensures Contains(Join(parts, sep), parts[k])
      {
        if k == 0 {
          assert OccursAt(Join(parts, sep), parts[0], 0);
        } else {
          assert parts[1..][k - 1] == parts[k];
          ContainsMiddle(parts[0] + sep, tail, []);
          assert parts[0] + sep + tail + [] == Join(parts, sep);
          ContainsTransitive(Join(parts, sep), tail, parts[k]);
        }
      }
    }
  }

  /** The record `createLead` builds from `leadData` on `date`. */
  function ZohoLeadOf(input: LeadInput, date: string): (lead: ZohoLead)
    ensures lead.leadStatus == "New" && lead.leadQualityScore == 0 && lead.autoCallStatus == "Pending"
    ensures lead.conversionSource == "WhatsApp Integration" && lead.firstContactDate == date
    ensures lead.leadSource == OrElse(input.leadSource, "WhatsApp")
    ensures lead.campaignSource == OrElse(input.campaignSource, "Direct")
    ensures lead.adPlatform == OrElse(input.adPlatform, "Organic")
    ensures lead.email.Some? <==> Truthy(input.email)
    ensures lead.email.Some? ==> lead.email == input.email
    ensures lead.description == if Truthy(input.originalMessage) then input.originalMessage else input.message
    ensures lead.phone == input.phone && lead.whatsAppId == input.whatsAppId
    ensures lead.messageContent == input.originalMessage
    ensures lead.utmSource == input.utmSource && lead.utmCampaign == input.utmCampaign && lead.utmMedium == input.utmMedium
    ensures lead.firstName == FirstName(input.name) && lead.lastName == LastName(input.name)
    ensures lead.customerInterest == CustomerInterest(input.interests)
    ensures lead.firstName != "" && lead.lastName != "" && lead.customerInterest != ""
  {
    ZohoLead(
      FirstName(input.name), LastName(input.name), input.phone,
      if Truthy(input.email) then input.email else None,
      OrElse(input.leadSource, "WhatsApp"), "New",
      if Truthy(input.originalMessage) then input.originalMessage else input.message,
      input.whatsAppId, OrElse(input.campaignSource, "Direct"), OrElse(input.adPlatform, "Organic"),
      0, date, input.originalMessage, CustomerInterest(input.interests),
      input.utmSource, input.utmCampaign, input.utmMedium,
      "WhatsApp Integration", "Pending")
  }

  /** A lead with nothing but a phone number gets every default. */
  lemma BareLeadDefaults(phone: string, date: string)
    ensures var lead := ZohoLeadOf(LeadInput(None, Some(phone), None, None, None, None, None, None, None, None, None, None, None), date);
      && lead.firstName == "Unknown" && lead.lastName == "Lead"
      && lead.leadSource == "WhatsApp" && lead.campaignSource == "Direct" && lead.adPlatform == "Organic"
      && lead.customerInterest == "General Inquiry" && lead.email.None? && lead.description.None?
  {
  }

  /** The fields of `qualificationData` that `updateLeadQualification` reads;
      `qualified` is its truthiness. */
  datatype Qualification = Qualification(
    score: Option<int>, qualified: bool, notes: Option<string>, callDuration: Option<int>,
    recordingUrl: Option<string>, nextAction: Option<string>)

  datatype LeadUpdate = LeadUpdate(
    id: string, leadQualityScore: Option<int>, leadStatus: string, qualificationNotes: Option<string>,
    callDuration: Option<int>, callRecordingUrl: Option<string>, qualifiedDate: string,
    nextAction: Option<string>, autoCallStatus: string)

  /** The record `updateLeadQualification` puts. */
  function LeadUpdateOf(leadId: string, q: Qualification, date: string): (u: LeadUpdate)
    ensures u.leadStatus == "Qualified" <==> q.qualified
    ensures u.leadStatus == "Not Qualified" <==> !q.qualified
    ensures u.autoCallStatus == "Completed" && u.id == leadId && u.qualifiedDate == date
    ensures u.leadQualityScore == q.score && u.qualificationNotes == q.notes && u.callDuration == q.callDuration
    ensures u.callRecordingUrl == q.recordingUrl && u.nextAction == q.nextAction
  {
    LeadUpdate(leadId, q.score, if q.qualified then "Qualified" else "Not Qualified", q.notes,
      q.callDuration, q.recordingUrl, date, q.nextAction, "Completed")
  }

  /** The fields of `conversionData` that `convertLead` reads; `createDeal` is its truthiness. */
  datatype Conversion = Conversion(
    convertTo: Option<string>, assignTo: Option<string>, createDeal: bool,
    dealName: Option<string>, dealAmount: Option<int>, closingDate: Option<string>)

  datatype Deal = Deal(dealName: Option<string>, amount: Option<int>, stage: string, closingDate: Option<string>)

  datatype ConvertRequest = ConvertRequest(convertTo: string, assignTo: Option<string>, deal: Option<Deal>)

  /** The record `convertLead` posts. */
  function ConvertRequestOf(c: Conversion): (r: ConvertRequest)
    ensures r.convertTo == OrElse(c.convertTo, "Contacts") && r.assignTo == c.assignTo
    ensures r.deal.Some? <==> c.createDeal
    ensures r.deal.Some? ==> r.deal.value == Deal(c.dealName, c.dealAmount, "Qualification", c.closingDate)
  {
    ConvertRequest(OrElse(c.convertTo, "Contacts"), c.assignTo,
      if c.createDeal then Some(Deal(c.dealName, c.dealAmount, "Qualification", c.closingDate)) else None)
  }

  /** `(Phone:equals:<phone>)` */
  function SearchCriteria(phone: string): (r: string)
    ensures |r| == |phone| + 15 && r[14..14 + |phone|] == phone
  {
    "(Phone:equals:" + phone + ")"
  }

  /** The automations a created lead is submitted with (the body's `trigger` member). */
  const LeadTriggers := ["workflow", "approval", "blueprint"]

  /** A request's JSON body: a create body is the `data` array of leads and the `trigger` list. */
  datatype RequestBody = CreateBody(leads: seq<ZohoLead>, trigger: seq<string>) | UpdateBody(update: LeadUpdate) | ConvertBody(conversion: ConvertRequest) | NoBody

  /** An authorised call to the CRM API: verb, URL, `Authorization` header,
      query criteria and body. */
  datatype ApiCall = ApiCall(verb: string, url: string, authorization: string, criteria: Option<string>, body: RequestBody)

  function Authorization(token: string): string {
    "Zoho-oauthtoken " + token
  }

  class ZohoCrmService {
    var accessToken: string
    var tokenExpiry: int
    const apiUrl: string

    /** A fresh client: no token, expired as of `now`, API base from `ZOHO_API_URL`. */
    constructor(apiUrlSetting: Option<string>, now: int)
      ensures accessToken == "" && tokenExpiry == now
      ensures apiUrl == OrElse(apiUrlSetting, DefaultApiUrl)
    {
      accessToken := "";
      tokenExpiry := now;
      apiUrl := OrElse(apiUrlSetting, DefaultApiUrl);
    }

    /** `refreshAccessToken()`: the cached token while it is set and not yet
        expired, with no call to the token endpoint; otherwise a refresh, which
        on success stores the new token for an hour and on failure leaves the
        cache as it was and fails. */
    method RefreshAccessToken(now: int, outcome: RefreshOutcome) returns (r: Result<string, Failure>, requested: bool)
      modifies this
      ensures CacheHit(old(accessToken), old(tokenExpiry), now) ==>
        !requested && r == Ok(old(accessToken)) && accessToken == old(accessToken) && tokenExpiry == old(tokenExpiry)
      ensures !CacheHit(old(accessToken), old(tokenExpiry), now) ==> requested
      ensures !CacheHit(old(accessToken), old(tokenExpiry), now) && outcome.TokenIssued? ==>
        r == Ok(outcome.token) && accessToken == outcome.token && tokenExpiry == now + TokenLifetime
      ensures !CacheHit(old(accessToken), old(tokenExpiry), now) && outcome.RefreshFailed? ==>
        r == Err(TokenRefreshFailed) && accessToken == old(accessToken) && tokenExpiry == old(tokenExpiry)
    {
      if CacheHit(accessToken, tokenExpiry, now) {
        return Ok(accessToken), false;
      }
      requested := true;
      match outcome
      case RefreshFailed =>
        r := Err(TokenRefreshFailed);
      case TokenIssued(token) =>
        accessToken := token;
        tokenExpiry := now + TokenLifetime;
        r := Ok(accessToken);
    }

    /** Two operations within the hour after a successful refresh: the second
        one is served from the cache. */
    method RefreshTwice(t1: int, t2: int, outcome1: RefreshOutcome, outcome2: RefreshOutcome)
      returns (r1: Result<string, Failure>, r2: Result<string, Failure>, requested2: bool)
      requires outcome1.TokenIssued? && outcome1.token != ""
      requires !CacheHit(accessToken, tokenExpiry, t1)
      requires t1 <= t2 < t1 + TokenLifetime
      modifies this
      ensures r1 == r2 == Ok(outcome1.token) && !requested2
      ensures accessToken == outcome1.token && tokenExpiry == t1 + TokenLifetime
    {
      var requested1;
      r1, requested1 := RefreshAccessToken(t1, outcome1);
      r2, requested2 := RefreshAccessToken(t2, outcome2);
    }

    /** `createLead(leadData)`: the created record's details; a refresh
        failure, an API failure or a response without records all throw. */
    method CreateLead(input: LeadInput, date: string, now: int, refresh: RefreshOutcome, api: ApiOutcome)
      returns (r: Result<string, Failure>, call: Option<ApiCall>)
      modifies this
      ensures call.Some? <==> CacheHit(old(accessToken), old(tokenExpiry), now) || refresh.TokenIssued?
      ensures accessToken == if CacheHit(old(accessToken), old(tokenExpiry), now) || refresh.RefreshFailed?
                             then old(accessToken) else refresh.token
      ensures tokenExpiry == if CacheHit(old(accessToken), old(tokenExpiry), now) || refresh.RefreshFailed?
                             then old(tokenExpiry) else now + TokenLifetime
      ensures call.Some? ==> call.value == ApiCall("POST", apiUrl + "/Leads", Authorization(accessToken), None,
                                                    CreateBody([ZohoLeadOf(input, date)], LeadTriggers))
      ensures call.None? ==> r == Err(TokenRefreshFailed)
      ensures call.Some? ==>
        if api.ApiOk? && api.records.Some? && |api.records.value| > 0 then r == Ok(api.records.value[0])
        else r == Err(ApiCallFailed)
    {
      var token, _ := RefreshAccessToken(now, refresh);
      if token.Err? {
        return Err(token.error), None;
      }
      var lead := ZohoLeadOf(input, date);
      call := Some(ApiCall("POST", apiUrl + "/Leads", Authorization(token.value), None, CreateBody([lead], LeadTriggers)));
      if api.ApiOk? && api.records.Some? && |api.records.value| > 0 {
        r := Ok(api.records.value[0]);
      } else {
        r := Err(ApiCallFailed);
      }
    }

    /** `updateLeadQualification(leadId, qualificationData)`: the response's
        data, or the failure rethrown. */
    method UpdateLeadQualification(leadId: string, q: Qualification, date: string, now: int,
                                   refresh: RefreshOutcome, api: ApiOutcome)
      returns (r: Result<Option<seq<string>>, Failure>, call: Option<ApiCall>)
      modifies this
      ensures call.Some? <==> CacheHit(old(accessToken), old(tokenExpiry), now) || refresh.TokenIssued?
      ensures accessToken == if CacheHit(old(accessToken), old(tokenExpiry), now) || refresh.RefreshFailed?
                             then old(accessToken) else refresh.token
      ensures tokenExpiry == if CacheHit(old(accessToken), old(tokenExpiry), now) || refresh.RefreshFailed?
                             then old(tokenExpiry) else now + TokenLifetime
      ensures call.Some? ==> call.value == ApiCall("PUT", apiUrl + "/Leads", Authorization(accessToken), None,
                                                    UpdateBody(LeadUpdateOf(leadId, q, date)))
      ensures call.None? ==> r == Err(TokenRefreshFailed)
      ensures call.Some? ==> r == if api.ApiOk? then Ok(api.records) else Err(ApiCallFailed)
    {
      var token, _ := RefreshAccessToken(now, refresh);
      if token.Err? {
        return Err(token.error), None;
      }
      call := Some(ApiCall("PUT", apiUrl + "/Leads", Authorization(token.value), None,
                           UpdateBody(LeadUpdateOf(leadId, q, date))));
      r := if api.ApiOk? then Ok(api.records) else Err(ApiCallFailed);
    }

    /** `convertLead(leadId, conversionData)`: the response's data, or the failure rethrown. */
    method ConvertLead(leadId: string, c: Conversion, now: int, refresh: RefreshOutcome, api: ApiOutcome)
      returns (r: Result<Option<seq<string>>, Failure>, call: Option<ApiCall>)
      modifies this
      ensures call.Some? <==> CacheHit(old(accessToken), old(tokenExpiry), now) || refresh.TokenIssued?
      ensures accessToken == if CacheHit(old(accessToken), old(tokenExpiry), now) || refresh.RefreshFailed?
                             then old(accessToken) else refresh.token
      ensures tokenExpiry == if CacheHit(old(accessToken), old(tokenExpiry), now) || refresh.RefreshFailed?
                             then old(tokenExpiry) else now + TokenLifetime
      ensures call.Some? ==> call.value == ApiCall("POST", apiUrl + "/Leads/" + leadId + "/convert",
                                                    Authorization(accessToken), None, ConvertBody(ConvertRequestOf(c)))
      ensures call.None? ==> r == Err(TokenRefreshFailed)
      ensures call.Some? ==> r == if api.ApiOk? then Ok(api.records) else Err(ApiCallFailed)
    {
      var token, _ := RefreshAccessToken(now, refresh);
      if token.Err? {
        return Err(token.error), None;
      }
      call := Some(ApiCall("POST", apiUrl + "/Leads/" + leadId + "/convert", Authorization(token.value), None,
                           ConvertBody(ConvertRequestOf(c))));
      r := if api.ApiOk? then Ok(api.records) else Err(ApiCallFailed);
    }

    /** `getLeadDetails(leadId)`: the first record (`None` when there is none);
        a response without a records member throws, as does a failed call. */
    method GetLeadDetails(leadId: string, now: int, refresh: RefreshOutcome, api: ApiOutcome)
      returns (r: Result<Option<string>, Failure>, call: Option<ApiCall>)
      modifies this
      ensures call.Some? <==> CacheHit(old(accessToken), old(tokenExpiry), now) || refresh.TokenIssued?
      ensures accessToken == if CacheHit(old(accessToken), old(tokenExpiry), now) || refresh.RefreshFailed?
                             then old(accessToken) else refresh.token
      ensures tokenExpiry == if CacheHit(old(accessToken), old(tokenExpiry), now) || refresh.RefreshFailed?
                             then old(tokenExpiry) else now + TokenLifetime
      ensures call.Some? ==> call.value == ApiCall("GET", apiUrl + "/Leads/" + leadId, Authorization(accessToken), None, NoBody)
      ensures call.None? ==> r == Err(TokenRefreshFailed)
      ensures call.Some? ==>
        if api.ApiError? || api.records.None? then r == Err(ApiCallFailed)
        else if |api.records.value| == 0 then r == Ok(None)
        else r == Ok(Some(api.records.value[0]))
    {
      var token, _ := RefreshAccessToken(now, refresh);
      if token.Err? {
        return Err(token.error), None;
      }
      call := Some(ApiCall("GET", apiUrl + "/Leads/" + leadId, Authorization(token.value), None, NoBody));
      if api.ApiError? || api.records.None? {
        r := Err(ApiCallFailed);
      } else if |api.records.value| == 0 {
        r := Ok(None);
      } else {
        r := Ok(Some(api.records.value[0]));
      }
    }

    /** `findLeadByPhone(phone)`: the first matching record, or `None` when
        there is none or the search fails; only a token refresh failure,
        which happens before the guarded search, propagates. */
    method FindLeadByPhone(phone: string, now: int, refresh: RefreshOutcome, api: ApiOutcome)
      returns (r: Result<Option<string>, Failure>, call: Option<ApiCall>)
      modifies this
      ensures call.Some? <==> CacheHit(old(accessToken), old(tokenExpiry), now) || refresh.TokenIssued?
      ensures accessToken == if CacheHit(old(accessToken), old(tokenExpiry), now) || refresh.RefreshFailed?
                             then old(accessToken) else refresh.token
      ensures tokenExpiry == if CacheHit(old(accessToken), old(tokenExpiry), now) || refresh.RefreshFailed?
                             then old(tokenExpiry) else now + TokenLifetime
      ensures call.Some? ==> call.value == ApiCall("GET", apiUrl + "/Leads/search", Authorization(accessToken),
                                                    Some(SearchCriteria(phone)), NoBody)
      ensures call.None? ==> r == Err(TokenRefreshFailed)
      ensures call.Some? ==> r.Ok?
      ensures call.Some? ==>
        (r.value.Some? <==> api.ApiOk? && api.records.Some? && |api.records.value| > 0)
      ensures r.Ok? && r.value.Some? ==> r.value.value == api.records.value[0]
    {
      var token, _ := RefreshAccessToken(now, refresh);
      if token.Err? {
        return Err(token.error), None;
      }
      call := Some(ApiCall("GET", apiUrl + "/Leads/search", Authorization(token.value), Some(SearchCriteria(phone)), NoBody));
      if api.ApiOk? && api.records.Some? && |api.records.value| > 0 {
        r := Ok(Some(api.records.value[0]));
      } else {
        r := Ok(None);
      }
    }
  }
}
