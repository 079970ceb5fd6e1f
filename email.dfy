/** Email notifications (server/email.ts): whether a mail transport is
    configured, the best-effort send, the plain-text copy made by stripping
    tags, and the two HTML templates. The environment variables are the
    record `Env`, the outcome of `sendMail` is the parameter `delivered`, and
    `new Date().toLocaleString()` is the parameter `date`. */
module EmailNotification {
  import opened Wrappers
  import opened Text

  datatype Env = Env(emailUser: Option<string>, emailPass: Option<string>,
                     smtpHost: Option<string>, smtpPort: Option<string>)

  /** `port` is `None` where `parseInt` gives `NaN`. */
  datatype TransportConfig = TransportConfig(host: string, port: Option<int>, secure: bool,
                                             user: string, pass: string, rejectUnauthorized: bool)

  const DefaultHost := "smtp.gmail.com"
  const DefaultPort := "587"
  const DefaultRecipient := "hi@ruka.live"

  /** The value of a radix-10 or radix-16 digit. */
  function DigitValue(c: char, radix: nat): (r: Option<nat>)
    requires radix == 10 || radix == 16
    ensures r.Some? ==> r.value < radix
    ensures radix == 10 ==> (r.Some? <==> IsDigit(c))
  {
    if IsDigit(c) then Some(c as int - '0' as int)
    else if radix == 16 && 'a' <= c <= 'f' then Some(c as int - 'a' as int + 10)
    else if radix == 16 && 'A' <= c <= 'F' then Some(c as int - 'A' as int + 10)
    else None
  }

  /** The number of leading characters of `s` that are digits of `radix`. */
  function DigitRun(s: string, radix: nat): (n: nat)
    requires radix == 10 || radix == 16
    ensures n <= |s|
    ensures forall i :: 0 <= i < n ==> DigitValue(s[i], radix).Some?
    ensures n < |s| ==> DigitValue(s[n], radix).None?
  {
    if s == [] || DigitValue(s[0], radix).None? then 0 else 1 + DigitRun(s[1..], radix)
  }

  /** The value of a string of digits, most significant first. */
  function DigitsValue(s: string, radix: nat): nat
    requires radix == 10 || radix == 16
    requires forall i :: 0 <= i < |s| ==> DigitValue(s[i], radix).Some?
  {
    if s == [] then 0
    else DigitsValue(s[..|s| - 1], radix) * radix + DigitValue(s[|s| - 1], radix).value
  }

  /** JavaScript's `parseInt(s)` with no radix, over ASCII: leading spaces,
      an optional sign, an optional `0x`/`0X` prefix selecting base 16, then
      the longest run of digits; `None` (NaN) when that run is empty. */
  function ParseInt(s: string): (r: Option<int>)
    ensures r.Some? ==> exists k :: 0 <= k < |s| && IsDigit(s[k])
    ensures r.Some? && r.value < 0 ==> exists k :: 0 <= k < |s| && s[k] == '-'
  {
    var t := TrimStart(s);
    var negative := |t| > 0 && t[0] == '-';
    var u := if |t| > 0 && (t[0] == '-' || t[0] == '+') then t[1..] else t;
    var hex := |u| >= 2 && u[0] == '0' && (u[1] == 'x' || u[1] == 'X');
    var radix := if hex then 16 else 10;
    var v := if hex then u[2..] else u;
    var n := DigitRun(v, radix);
    if n == 0 then None
    else
      var value: int := DigitsValue(v[..n], radix);
      var at := |s| - |t| + (if |t| > 0 && (t[0] == '-' || t[0] == '+') then 1 else 0);
      assert negative ==> s[|s| - |t|] == '-';
      assert u[0] == s[at];
      assert IsDigit(u[0]);
      Some(if negative then -value else value)
  }

  /** The decimal numeral of `n`, as `String(n)` writes it. */
  function Decimal(n: nat): (s: string)
    ensures |s| >= 1 && forall i :: 0 <= i < |s| ==> IsDigit(s[i])
    ensures n >= 10 ==> s[0] != '0'
  {
    var d := ['0' + (n % 10) as char];
    if n < 10 then d else Decimal(n / 10) + d
  }

  lemma {:induction false} DecimalValue(n: nat)
    ensures DigitsValue(Decimal(n), 10) == n
  {
    var s := Decimal(n);
    if n >= 10 {
      DecimalValue(n / 10);
      assert s[..|s| - 1] == Decimal(n / 10);
    }
  }

  lemma DigitRunAll(s: string, radix: nat)
    requires radix == 10 || radix == 16
    requires forall i :: 0 <= i < |s| ==> DigitValue(s[i], radix).Some?
    ensures DigitRun(s, radix) == |s|
  {
    if s != [] { DigitRunAll(s[1..], radix); }
  }

  /** A decimal numeral never starts with a hexadecimal prefix. */
  lemma DecimalIsPlain(n: nat)
    ensures var s := Decimal(n); !(|s| >= 2 && s[0] == '0' && (s[1] == 'x' || s[1] == 'X'))
  {
    if |Decimal(n)| >= 2 {
      assert n >= 10;
    }
  }

  /** A non-empty run of decimal digits with no sign and no hexadecimal
      prefix reads as its decimal value. */
  lemma ParseIntPlainDigits(s: string)
    requires |s| > 0 && forall i :: 0 <= i < |s| ==> IsDigit(s[i])
    requires !(|s| >= 2 && s[0] == '0' && (s[1] == 'x' || s[1] == 'X'))
    ensures ParseInt(s) == Some(DigitsValue(s, 10))
  {
    assert TrimStart(s) == s;
    assert IsDigit(s[0]) && s[0] != '-' && s[0] != '+';
    DigitRunAll(s, 10);
    assert s[..|s|] == s;
  }

  /** `parseInt` reads back every decimal numeral. */
  lemma ParseIntDecimal(n: nat)
    ensures ParseInt(Decimal(n)) == Some(n)
  {
    DecimalIsPlain(n);
    ParseIntPlainDigits(Decimal(n));
    DecimalValue(n);
  }

  lemma DecimalDefaultPort()
    ensures Decimal(587) == DefaultPort
  {
    assert Decimal(5) == "5";
    assert Decimal(58) == "58";
  }

  /** `createTransporter()`: nothing unless both `EMAIL_USER` and `EMAIL_PASS`
      are set and non-empty; the port is `parseInt(SMTP_PORT || "587")` and
      the connection is secure exactly on port 465. */
  function CreateTransporter(env: Env): (t: Option<TransportConfig>)
    ensures t.None? <==> !Truthy(env.emailUser) || !Truthy(env.emailPass)
    ensures t.Some? ==> t.value.user == env.emailUser.value && t.value.pass == env.emailPass.value
    ensures t.Some? ==> t.value.host == OrElse(env.smtpHost, DefaultHost)
    ensures t.Some? ==> t.value.port == ParseInt(OrElse(env.smtpPort, DefaultPort))
    ensures t.Some? ==> (t.value.secure <==> t.value.port == Some(465))
    ensures t.Some? ==> !t.value.rejectUnauthorized
  {
    var host := OrElse(env.smtpHost, DefaultHost);
    var port := ParseInt(OrElse(env.smtpPort, DefaultPort));
    if !Truthy(env.emailUser) || !Truthy(env.emailPass) then None
    else Some(TransportConfig(host, port, port == Some(465), env.emailUser.value, env.emailPass.value, false))
  }

  /** Without `SMTP_PORT` the port is 587 and the connection is not secure;
      with `SMTP_PORT` set to a numeral the port is its value. */
  lemma TransportPort(env: Env)
    requires CreateTransporter(env).Some?
    ensures !Truthy(env.smtpPort) ==> CreateTransporter(env).value.port == Some(587)
    ensures !Truthy(env.smtpPort) ==> !CreateTransporter(env).value.secure
    ensures forall n: nat :: env.smtpPort == Some(Decimal(n)) ==>
              CreateTransporter(env).value.port == Some(n)
              && (CreateTransporter(env).value.secure <==> n == 465)
  {
    ParseIntDecimal(587);
    DecimalDefaultPort();
    forall n: nat | env.smtpPort == Some(Decimal(n))
      ensures CreateTransporter(env).value.port == Some(n)
    {
      ParseIntDecimal(n);
    }
  }

  /** No '<' of `s` has a '>' anywhere after it, so `<[^>]*>` matches nowhere in `s`. */
  predicate TagFree(s: string) {
    forall i, j :: 0 <= i < j < |s| && s[i] == '<' ==> s[j] != '>'
  }

  /** `s.replace(/<[^>]*>/g, "")`: from left to right, every '<' that has a
      '>' after it is removed together with everything up to the first such '>'. */
  function StripTags(s: string): (r: string)
    ensures |r| <= |s|
    ensures forall c :: c in r ==> c in s
    decreases |s|
  {
    if s == [] then []
    else if s[0] == '<' then
      match IndexOf(s[1..], '>')
      case Some(j) => StripTags(s[j + 2..])
      case None => [s[0]] + StripTags(s[1..])
    else [s[0]] + StripTags(s[1..])
  }

  lemma TagFreeCons(c: char, s: string)
    requires TagFree(s)
    requires c == '<' ==> '>' !in s
    ensures TagFree([c] + s)
  {
    var t := [c] + s;
    forall i, j | 0 <= i < j < |t| && t[i] == '<'
      ensures t[j] != '>'
    {
      if i == 0 { assert t[j] == s[j - 1]; } else { assert t[i] == s[i - 1] && t[j] == s[j - 1]; }
    }
  }

  /** The plain-text copy has no tag left in it. */
  lemma {:induction false} StripTagsTagFree(s: string)
    ensures TagFree(StripTags(s))
    decreases |s|
  {
    if s == [] {
    } else if s[0] == '<' {
      match IndexOf(s[1..], '>')
      case Some(j) => StripTagsTagFree(s[j + 2..]);
      case None =>
        StripTagsTagFree(s[1..]);
        TagFreeCons(s[0], StripTags(s[1..]));
    } else {
      StripTagsTagFree(s[1..]);
      TagFreeCons(s[0], StripTags(s[1..]));
    }
  }

  /** A string with no tag in it is left as it is. */
  lemma {:induction false} StripTagsKeepsTagFree(s: string)
    requires TagFree(s)
    ensures StripTags(s) == s
    decreases |s|
  {
    if s != [] {
      assert TagFree(s[1..]) by {
        forall i, j | 0 <= i < j < |s[1..]| && s[1..][i] == '<'
          ensures s[1..][j] != '>'
        {
          assert s[i + 1] == '<';
        }
      }
      if s[0] == '<' {
        assert '>' !in s[1..] by {
          forall j | 0 <= j < |s[1..]|
            ensures s[1..][j] != '>'
          {
            assert s[j + 1] == s[1..][j];
          }
        }
      }
      StripTagsKeepsTagFree(s[1..]);
    }
  }

  /** Stripping tags is idempotent. */
  lemma StripTagsIdempotent(s: string)
    ensures StripTags(StripTags(s)) == StripTags(s)
  {
    StripTagsTagFree(s);
    StripTagsKeepsTagFree(StripTags(s));
  }

  /** Text without a '<' passes through unchanged. */
  lemma StripTagsWithoutBracket(s: string)
    requires '<' !in s
    ensures StripTags(s) == s
  {
    StripTagsKeepsTagFree(s);
  }

  datatype MailOptions = MailOptions(from: string, to: string, subject: string, html: string, text: string)

  /** What `sendEmailNotification` did: whether it reports success, and the
      mail it handed to the transport, if any. */
  datatype SendOutcome = SendOutcome(sent: bool, attempted: Option<MailOptions>)

  /** `sendEmailNotification(subject, content, toEmail)`: never throws; reports
      false when no transport is configured or delivery fails, and true only
      after `sendMail` succeeded. `toEmail` left undefined means `hi@ruka.live`. */
  function SendEmailNotification(subject: string, content: string, toEmail: Option<string>, env: Env, delivered: bool)
    : (r: SendOutcome)
    ensures CreateTransporter(env).None? ==> r == SendOutcome(false, None)
    ensures CreateTransporter(env).Some? ==> r.sent == delivered && r.attempted.Some?
    ensures r.sent ==> r.attempted.Some?
    ensures r.attempted.Some? ==>
      var m := r.attempted.value;
      && m.from == env.emailUser.value && m.to == toEmail.GetOr(DefaultRecipient)
      && m.subject == subject && m.html == content && m.text == StripTags(content)
  {
    var transporter := CreateTransporter(env);
    if transporter.None? then SendOutcome(false, None)
    else
      var mail := MailOptions(OrElse(env.emailUser, "noreply@ruka.live"), toEmail.GetOr(DefaultRecipient),
                              subject, content, StripTags(content));
      SendOutcome(delivered, Some(mail))
  }

  /** The plain-text copy of every mail sent has no tag left in it. */
  lemma SentTextIsTagFree(subject: string, content: string, toEmail: Option<string>, env: Env, delivered: bool)
    requires SendEmailNotification(subject, content, toEmail, env, delivered).attempted.Some?
    ensures TagFree(SendEmailNotification(subject, content, toEmail, env, delivered).attempted.value.text)
  {
    StripTagsTagFree(content);
  }

  const LineBreak := "\n        "
  const ParagraphEnd := "</p>" + LineBreak
  const ParagraphOpen := "<p style=\"margin: 10px 0 0 0;\">"
  const EmailLabel := "<strong>Email:</strong> "
  const DateLabel := "<strong>Date:</strong> "
  const NameLabel := "<strong>Name:</strong> "
  const PhoneLabel := "<strong>Phone:</strong> "

  const SubscriptionHead :=
    "\n    <div style=\"font-family: Arial, sans-serif; max-width: 600px; margin: 0 auto;\">\n"
    + "      <h2 style=\"color: #7c3aed;\">New Email Subscription</h2>\n"
    + "      <p>A new user has subscribed to Ruka updates:</p>\n"
    + "      <div style=\"background: #f3f4f6; padding: 20px; border-radius: 8px; margin: 20px 0;\">\n"
    + "        <p style=\"margin: 0;\">"

  const FooterText :=
    "      <p style=\"color: #6b7280; font-size: 14px;\">\n"
    + "        This notification was sent from the Ruka AI Agent Landing Page.\n"
    + "      </p>\n"
    + "    </div>\n  "

  const SubscriptionTail := "</p>\n      </div>\n" + FooterText

  /** `a + x + b + y + c`, where both `x` and `y` occur. */
  function Fill2(a: string, x: string, b: string, y: string, c: string): (r: string)
    ensures Contains(r, x) && Contains(r, y) && Contains(r, c)
    ensures |r| == |a| + |x| + |b| + |y| + |c|
  {
    ContainsMiddle(a, x, b + y + c);
    assert a + x + b + y + c == a + x + (b + y + c);
    ContainsMiddle(a + x + b, y, c);
    ContainsMiddle(a + x + b + y, c, "");
    assert a + x + b + y + c + "" == a + x + b + y + c;
    a + x + b + y + c
  }

  /** `formatEmailSubscriptionNotification(email)` at time `date`. */
  function FormatEmailSubscriptionNotification(email: string, date: string): (html: string)
    ensures Contains(html, EmailLabel + email)
    ensures Contains(html, DateLabel + date)
    ensures |html| == |SubscriptionHead| + |EmailLabel| + |ParagraphEnd| + |ParagraphOpen| + |DateLabel|
                      + |SubscriptionTail| + |email| + |date|
  {
    Fill2(SubscriptionHead, EmailLabel + email, ParagraphEnd + ParagraphOpen, DateLabel + date, SubscriptionTail)
  }

  const CallRequestHead :=
    "\n    <div style=\"font-family: Arial, sans-serif; max-width: 600px; margin: 0 auto;\">\n"
    + "      <h2 style=\"color: #7c3aed;\">New Call Request</h2>\n"
    + "      <p>A new user has requested a call from Ruka:</p>\n"
    + "      <div style=\"background: #f3f4f6; padding: 20px; border-radius: 8px; margin: 20px 0;\">\n"
    + "        <p style=\"margin: 0;\">"

  const CallRequestTail :=
    "</p>\n      </div>\n"
    + "      <p style=\"color: #10b981; font-weight: bold;\">\n"
    + "        \U{2705} Ruka AI will automatically call this lead.\n"
    + "      </p>\n"
    + FooterText

  /** The optional email paragraph: present exactly when the email is truthy. */
  function EmailParagraph(email: Option<string>): (p: string)
    ensures Truthy(email) ==> Contains(p, EmailLabel + email.value)
    ensures |p| == if Truthy(email) then |ParagraphOpen| + |EmailLabel| + |email.value| + 4 else 0
  {
    if Truthy(email) then Fill2(ParagraphOpen, EmailLabel + email.value, "</p>", "", "") else ""
  }

  /** `formatCallRequestNotification(name, phoneNumber, email)` at time `date`:
      always the name and the phone, the email line only for a non-empty email. */
  function FormatCallRequestNotification(name: string, phoneNumber: string, email: Option<string>, date: string)
    : (html: string)
    ensures Contains(html, NameLabel + name)
    ensures Contains(html, PhoneLabel + phoneNumber)
    ensures Truthy(email) ==> Contains(html, EmailLabel + email.value)
    ensures Contains(html, DateLabel + date)
    ensures |html| == |CallRequestHead| + |NameLabel| + 2 * |ParagraphEnd| + 2 * |ParagraphOpen| + |PhoneLabel|
                      + |LineBreak| + |DateLabel| + |CallRequestTail| + |name| + |phoneNumber| + |date|
                      + (if Truthy(email) then |ParagraphOpen| + |EmailLabel| + |email.value| + 4 else 0)
  {
    var emailLine := EmailParagraph(email);
    var rest := Fill2(ParagraphEnd, emailLine, LineBreak + ParagraphOpen, DateLabel + date, CallRequestTail);
    var html := Fill2(CallRequestHead, NameLabel + name, ParagraphEnd + ParagraphOpen, PhoneLabel + phoneNumber, rest);
    ContainsTransitive(html, rest, DateLabel + date);
    if Truthy(email) then
      ContainsTransitive(rest, emailLine, EmailLabel + email.value);
      ContainsTransitive(html, rest, EmailLabel + email.value);
      html
    else
      html
  }
}
