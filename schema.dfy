/** The shared row types and the two insert schemas that validate request
    bodies (shared/schema.ts). A schema turns a body into either the typed
    insert value or the list of issues it found, in the order it checks them:
    the object's keys in declaration order, and for a string every check in
    declaration order (a failing check does not stop the later ones).
    The schema library's `.email()` check is a parameter `isEmail`. */
module Schema {
  import opened Wrappers
  import opened Text

  datatype User = User(id: string, username: string, password: string)
  datatype EmailSubscription = EmailSubscription(id: string, email: string, createdAt: int)
  datatype CallRequest = CallRequest(id: string, phoneNumber: string, email: string, createdAt: int)

  datatype InsertUser = InsertUser(username: string, password: string)
  datatype InsertEmailSubscription = InsertEmailSubscription(email: string)
  datatype InsertCallRequest = InsertCallRequest(phoneNumber: string, email: string)

  /** A member of a JSON request body, as a string schema sees it: a string,
      or some other JSON type (named as the schema library names it). */
  datatype FieldValue = Str(s: string) | NotString(received: string)
  type Body = map<string, FieldValue>

  datatype Issue = Issue(path: string, message: string)

  const PhoneMinLength := 10
  const PhoneTooShortMessage := "Phone number must be at least 10 digits"
  const PhoneFormatMessage := "Please enter a valid phone number with country code (e.g., +1234567890)"
  const EmailFormatMessage := "Please enter a valid email address"
  const RequiredMessage := "Required"

  /** The keys each schema validates, in declaration order; every other key of a body is dropped. */
  const EmailSubscriptionKeys := ["email"]
  const CallRequestKeys := ["phoneNumber", "email"]

  /** Anything the `.email()` check accepts has an '@' in it. */
  ghost predicate SoundEmailCheck(isEmail: string -> bool) {
    forall s :: isEmail(s) ==> '@' in s
  }

  /** `^\+?[1-9]\d{1,14}$` */
  predicate MatchesPhonePattern(s: string) {
    var d := if |s| > 0 && s[0] == '+' then s[1..] else s;
    2 <= |d| <= 15 && '1' <= d[0] <= '9' && AllChars(d[1..], IsDigit)
  }

  /** The phone number's checks, `.min(10)` then `.regex(...)`. */
  function PhoneIssues(s: string): (r: seq<Issue>)
    ensures |r| <= 2 && forall i :: 0 <= i < |r| ==> r[i].path == "phoneNumber"
    ensures r == [] <==> |s| >= PhoneMinLength && MatchesPhonePattern(s)
  {
    (if |s| < PhoneMinLength then [Issue("phoneNumber", PhoneTooShortMessage)] else [])
    + (if !MatchesPhonePattern(s) then [Issue("phoneNumber", PhoneFormatMessage)] else [])
  }

  predicate PhoneValid(s: string) {
    PhoneIssues(s) == []
  }

  /** A string of decimal digits whose first digit is not zero. */
  predicate LeadingNonzeroDigits(d: string) {
    |d| > 0 && d[0] != '0' && AllChars(d, IsDigit)
  }

  /** The phone rule in terms of digits: the length check counts the '+', so a
      '+'-prefixed number needs 9 to 15 digits and an unprefixed one 10 to 15. */
  lemma PhoneDigitCount(s: string)
    ensures PhoneValid(s) <==>
      (|s| > 0 && s[0] == '+' && LeadingNonzeroDigits(s[1..]) && 9 <= |s| - 1 <= 15)
      || (|s| > 0 && s[0] != '+' && LeadingNonzeroDigits(s) && 10 <= |s| <= 15)
  {
  }

  /** Every accepted phone number is 10 to 16 characters, has at most one '+',
      which is its first character, and is otherwise ASCII digits, the first nonzero. */
  lemma PhoneShape(s: string)
    requires PhoneValid(s)
    ensures 10 <= |s| <= 16
    ensures forall i :: 1 <= i < |s| ==> IsDigit(s[i])
    ensures s[0] == '+' || IsDigit(s[0])
    ensures var first := if s[0] == '+' then s[1] else s[0]; '1' <= first <= '9'
  {
    var d := if s[0] == '+' then s[1..] else s;
    forall i | 1 <= i < |s|
      ensures IsDigit(s[i])
    {
      if s[0] == '+' { if i > 1 { assert s[i] == d[1..][i - 2]; } }
      else { assert s[i] == d[1..][i - 1]; }
    }
  }

  /** A phone number too short and malformed reports the length message first. */
  lemma ShortPhoneReportsLengthFirst(s: string)
    requires |s| < PhoneMinLength
    ensures |PhoneIssues(s)| >= 1 && PhoneIssues(s)[0].message == PhoneTooShortMessage
    ensures !MatchesPhonePattern(s) ==> |PhoneIssues(s)| == 2
  {
  }

  /** `z.string()` on one key of the body: missing, or not a string, is one issue. */
  function StringField(body: Body, key: string): (r: Result<string, seq<Issue>>)
    ensures r.Ok? <==> key in body && body[key].Str?
    ensures r.Ok? ==> r.value == body[key].s
    ensures r.Err? ==> |r.error| == 1 && r.error[0].path == key
  {
    if key !in body then Err([Issue(key, RequiredMessage)])
    else match body[key]
      case Str(s) => Ok(s)
      case NotString(t) => Err([Issue(key, "Expected string, received " + t)])
  }

  function EmailIssues(s: string, isEmail: string -> bool): seq<Issue> {
    if isEmail(s) then [] else [Issue("email", EmailFormatMessage)]
  }

  function FieldIssues(f: Result<string, seq<Issue>>, checks: string -> seq<Issue>): seq<Issue> {
    match f
    case Err(e) => e
    case Ok(s) => checks(s)
  }

  /** `insertEmailSubscriptionSchema.parse(body)` */
  function ParseEmailSubscription(body: Body, isEmail: string -> bool): (r: Result<InsertEmailSubscription, seq<Issue>>)
    ensures r.Ok? <==> "email" in body && body["email"].Str? && isEmail(body["email"].s)
    ensures r.Ok? ==> r.value.email == body["email"].s
    ensures r.Err? ==> |r.error| == 1 && r.error[0].path == "email"
  {
    var f := StringField(body, "email");
    var issues := FieldIssues(f, s => EmailIssues(s, isEmail));
    if issues == [] then Ok(InsertEmailSubscription(f.value)) else Err(issues)
  }

  /** `insertCallRequestSchema.parse(body)`: phone number issues come before email issues. */
  function ParseCallRequest(body: Body, isEmail: string -> bool): (r: Result<InsertCallRequest, seq<Issue>>)
    ensures r.Ok? <==> "phoneNumber" in body && body["phoneNumber"].Str? && PhoneValid(body["phoneNumber"].s)
                       && "email" in body && body["email"].Str? && isEmail(body["email"].s)
    ensures r.Ok? ==> r.value == InsertCallRequest(body["phoneNumber"].s, body["email"].s)
    ensures r.Err? ==> 1 <= |r.error| <= 3 && r.error[0].path in CallRequestKeys
  {
    var p := StringField(body, "phoneNumber");
    var e := StringField(body, "email");
    var issues := FieldIssues(p, PhoneIssues) + FieldIssues(e, s => EmailIssues(s, isEmail));
    if issues == [] then Ok(InsertCallRequest(p.value, e.value)) else Err(issues)
  }

  /** The email subscription schema looks at the `email` key and nothing else. */
  lemma EmailSubscriptionReadsOnlyEmail(b1: Body, b2: Body, isEmail: string -> bool)
    requires ("email" in b1 <==> "email" in b2)
    requires "email" in b1 ==> b1["email"] == b2["email"]
    ensures ParseEmailSubscription(b1, isEmail) == ParseEmailSubscription(b2, isEmail)
  {
    assert StringField(b1, "email") == StringField(b2, "email");
  }

  /** The call request schema has no `name` field: whatever a body says under
      `name` (or under any key other than `phoneNumber` and `email`) is ignored. */
  lemma CallRequestIgnoresOtherKeys(body: Body, key: string, v: FieldValue, isEmail: string -> bool)
    requires key !in CallRequestKeys
    ensures ParseCallRequest(body[key := v], isEmail) == ParseCallRequest(body, isEmail)
  {
    assert StringField(body[key := v], "phoneNumber") == StringField(body, "phoneNumber");
    assert StringField(body[key := v], "email") == StringField(body, "email");
  }

  /** `email` is required by the call request schema: an empty email is rejected
      with the email message, whatever the phone number. */
  lemma CallRequestRejectsEmptyEmail(body: Body, isEmail: string -> bool)
    requires SoundEmailCheck(isEmail)
    requires "email" in body && body["email"] == Str("")
    ensures ParseCallRequest(body, isEmail).Err?
    ensures Issue("email", EmailFormatMessage) in ParseCallRequest(body, isEmail).error
  {
    assert !isEmail("");
    var p := StringField(body, "phoneNumber");
    var issues := FieldIssues(p, PhoneIssues) + EmailIssues("", isEmail);
    assert issues[|issues| - 1] == Issue("email", EmailFormatMessage);
  }

  /** A phone number shorter than ten characters is the first thing reported,
      with the length message, whatever else is wrong with the body. */
  lemma ShortPhoneReportedFirst(body: Body, isEmail: string -> bool)
    requires "phoneNumber" in body && body["phoneNumber"].Str? && |body["phoneNumber"].s| < PhoneMinLength
    ensures ParseCallRequest(body, isEmail).Err?
    ensures ParseCallRequest(body, isEmail).error[0] == Issue("phoneNumber", PhoneTooShortMessage)
  {
    var p := StringField(body, "phoneNumber");
    var issues := FieldIssues(p, PhoneIssues) + FieldIssues(StringField(body, "email"), s => EmailIssues(s, isEmail));
    assert issues[0] == PhoneIssues(body["phoneNumber"].s)[0];
  }

  /** The call request is rejected with the email message exactly when the
      body's email is a string that the `.email()` check refuses. */
  lemma CallRequestEmailIssue(body: Body, isEmail: string -> bool)
    ensures (ParseCallRequest(body, isEmail).Err? && Issue("email", EmailFormatMessage) in ParseCallRequest(body, isEmail).error)
      <==> "email" in body && body["email"].Str? && !isEmail(body["email"].s)
  {
    var phone := FieldIssues(StringField(body, "phoneNumber"), PhoneIssues);
    var email := FieldIssues(StringField(body, "email"), s => EmailIssues(s, isEmail));
    assert forall i :: 0 <= i < |phone| ==> phone[i].path == "phoneNumber";
    if "email" in body && body["email"].NotString? {
      var m := "Expected string, received " + body["email"].received;
      assert m[0] != EmailFormatMessage[0];
      assert email == [Issue("email", m)];
    }
    assert Issue("email", EmailFormatMessage) in phone + email <==> Issue("email", EmailFormatMessage) in email;
  }
}
