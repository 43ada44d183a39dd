/** The mail side (mail.go): the choice of SMTP authentication, the LOGIN
    challenge/response exchange, and the text of the multipart message that
    carries one iCalendar VEVENT per outage (RFC 5545, sections 3.4 and
    3.6.1). */
module Mail {
  import opened Text
  import opened Clock
  import opened Cache
  import opened Outage

  // ---------------------------------------------------------------------
  // Authentication

  /** The accepted values of the `auth_method` setting. */
  const AuthMethodPlain: string := "plain"
  const AuthMethodMD5: string := "md5"
  const AuthMethodCustom: string := "custom"

  /** The SMTP settings of one sender. */
  datatype SmtpConfig = SmtpConfig(
    mail: string,
    address: string,
    port: string,
    from: string,
    username: string,
    password: string,
    authMethod: string,
    identity: string,
    skipTLS: bool)

  /** The smtp.Auth values the program builds. */
  datatype Auth =
    | CramMD5(username: string, secret: string)                           // smtp.CRAMMD5Auth
    | Plain(identity: string, username: string, password: string, host: string)  // smtp.PlainAuth
    | Login(username: string, password: string)                           // LoginAuth

  /** The SASL mechanism each one announces when it starts. */
  function Mechanism(a: Auth): string
  {
    match a
    case CramMD5(_, _) => "CRAM-MD5"
    case Plain(_, _, _, _) => "PLAIN"
    case Login(_, _) => "LOGIN"
  }

  /** The setting that selects each kind of authentication. */
  function MethodOf(a: Auth): string
  {
    match a
    case CramMD5(_, _) => AuthMethodMD5
    case Plain(_, _, _, _) => AuthMethodPlain
    case Login(_, _) => AuthMethodCustom
  }

  /** Mail: a sender ready to compose and send. */
  datatype MailClient = MailClient(auth: Auth, config: SmtpConfig, loc: Location)

  /** NewMailClient: the authentication the setting names, or None (the
      error "invalid auth method") for any other setting. */
  function NewMailClient(config: SmtpConfig, loc: Location): (r: Option<MailClient>)
    ensures r.Some? <==> config.authMethod in {AuthMethodMD5, AuthMethodPlain, AuthMethodCustom}
    ensures r.Some? ==> MethodOf(r.value.auth) == config.authMethod
    ensures r.Some? ==> r.value.config == config && r.value.loc == loc
  {
    if config.authMethod == AuthMethodMD5 then
      Some(MailClient(CramMD5(config.username, config.password), config, loc))
    else if config.authMethod == AuthMethodPlain then
      Some(MailClient(Plain(config.identity, config.username, config.password, config.address), config, loc))
    else if config.authMethod == AuthMethodCustom then
      Some(MailClient(Login(config.username, config.password), config, loc))
    else None
  }

  /** The three settings select CRAM-MD5, PLAIN and LOGIN, and each carries
      the configured credentials. */
  lemma NewMailClientMechanisms(config: SmtpConfig, loc: Location)
    ensures config.authMethod == "md5" ==>
              NewMailClient(config, loc).Some?
              && Mechanism(NewMailClient(config, loc).value.auth) == "CRAM-MD5"
              && NewMailClient(config, loc).value.auth == CramMD5(config.username, config.password)
    ensures config.authMethod == "plain" ==>
              NewMailClient(config, loc).Some?
              && Mechanism(NewMailClient(config, loc).value.auth) == "PLAIN"
              && NewMailClient(config, loc).value.auth
                 == Plain(config.identity, config.username, config.password, config.address)
    ensures config.authMethod == "custom" ==>
              NewMailClient(config, loc).Some?
              && Mechanism(NewMailClient(config, loc).value.auth) == "LOGIN"
              && NewMailClient(config, loc).value.auth == Login(config.username, config.password)
  {
  }

  /** The LOGIN credentials (loginAuth). */
  datatype LoginAuth = LoginAuth(username: string, password: string)

  /** (*loginAuth).Start: the mechanism name and the initial response. */
  function Start(a: LoginAuth): (r: (string, string))
    ensures r.0 == Mechanism(Login(a.username, a.password))
  {
    ("LOGIN", a.username)
  }

  /** A reply to a server challenge: a response (None for Go's nil) and an
      error message. */
  datatype Reply = Reply(response: Option<string>, err: Option<string>)

  const UsernameChallenge: string := "Username:"
  const PasswordChallenge: string := "Password:"
  /** The error text, spelled as in the program. */
  const UnknownChallenge: string := "unkown fromServer"

  /** (*loginAuth).Next. */
  function Next(a: LoginAuth, fromServer: string, more: bool): (r: Reply)
    ensures r.err.Some? <==> more && fromServer != UsernameChallenge && fromServer != PasswordChallenge
    ensures r.err.Some? ==> r.err.value == UnknownChallenge && r.response.None?
    ensures !more ==> r == Reply(None, None)
  {
    if more then
      if fromServer == UsernameChallenge then Reply(Some(a.username), None)
      else if fromServer == PasswordChallenge then Reply(Some(a.password), None)
      else Reply(None, Some(UnknownChallenge))
    else Reply(None, None)
  }

  /** The password is only ever sent in answer to the "Password:" challenge
      while the server wants more. */
  lemma PasswordOnlyOnRequest(a: LoginAuth, fromServer: string, more: bool)
    requires a.password != a.username
    requires Next(a, fromServer, more).response == Some(a.password)
    ensures more && fromServer == PasswordChallenge
  {
  }

  /** The replies to a run of challenges, each sent while the server wants
      more. */
  function Exchange(a: LoginAuth, challenges: seq<string>): (r: seq<Reply>)
    ensures |r| == |challenges|
  {
    if challenges == [] then []
    else Exchange(a, challenges[..|challenges| - 1]) + [Next(a, challenges[|challenges| - 1], true)]
  }

  /** The challenges a LOGIN server sends: the initial response carries the
      username, then the server asks for the username and the password. The
      exchange succeeds and hands over exactly those. */
  lemma LoginExchange(a: LoginAuth)
    ensures Start(a) == ("LOGIN", a.username)
    ensures Exchange(a, [UsernameChallenge, PasswordChallenge])
         == [Reply(Some(a.username), None), Reply(Some(a.password), None)]
  {
    assert [UsernameChallenge, PasswordChallenge][..1] == [UsernameChallenge];
    assert [UsernameChallenge][..0] == [];
  }

  /** In a run of challenges, a reply is an error exactly when its
      challenge is neither "Username:" nor "Password:". */
  lemma {:induction false} ExchangeErrors(a: LoginAuth, challenges: seq<string>, i: nat)
    requires i < |challenges|
    ensures Exchange(a, challenges)[i].err.Some?
        <==> challenges[i] != UsernameChallenge && challenges[i] != PasswordChallenge
    decreases |challenges|
  {
    if i < |challenges| - 1 {
      ExchangeErrors(a, challenges[..|challenges| - 1], i);
    }
  }

  // ---------------------------------------------------------------------
  // The message

  const CRLF: string := "\r\n"

  /** The recipients as the Bcc header lists them. */
  function Bcc(recipients: seq<string>): string
  {
    Join(recipients, ",")
  }

  /** MailHeadersFormat filled in up to the value of the boundary parameter:
      the sender, To the sender's own address, Bcc the recipients. */
  function HeaderFields(config: SmtpConfig, recipients: seq<string>): (f: string)
    ensures |f| >= 6 && f[..6] == "From: "
  {
    var rest := config.from + " <" + config.mail + ">" + CRLF
      + "To: " + config.mail + CRLF
      + "Bcc: " + Bcc(recipients) + CRLF
      + "Subject: Power Outage" + CRLF
      + "MIME-Version: 1.0" + CRLF
      + "Content-Type: multipart/alternative; boundary=\"";
    Prefix("From: ", rest);
    "From: " + rest
  }

  /** What follows the boundary parameter: its closing quote and the blank
      line that ends the headers. */
  const HeaderEnd: string := "\"\r\n\r\n"

  /** MailHeadersFormat filled in: it opens with the From field and ends
      with the boundary parameter's value and the blank line. */
  function Headers(config: SmtpConfig, recipients: seq<string>, boundary: string): (h: string)
    ensures |h| >= 6 + |boundary| + |HeaderEnd| && h[..6] == "From: "
    ensures h[|h| - |HeaderEnd| - |boundary|..|h| - |HeaderEnd|] == boundary
    ensures h[|h| - |HeaderEnd|..] == HeaderEnd
  {
    var fields := HeaderFields(config, recipients);
    Middle(fields, boundary, HeaderEnd);
    Prefix(fields, boundary + HeaderEnd);
    Associative(fields, boundary, HeaderEnd);
    fields + boundary + HeaderEnd
  }

  /** Helper: a concatenation starts with its first piece and ends with
      its second. */
  lemma Prefix(a: string, b: string)
    ensures (a + b)[..|a|] == a && (a + b)[|a|..] == b
  {
  }

  /** The line that opens a body part. */
  function Delimiter(boundary: string): string
  {
    "--" + boundary + CRLF
  }

  /** The line that closes the multipart body. */
  function CloseDelimiter(boundary: string): string
  {
    "--" + boundary + "--" + CRLF
  }

  /** The calendar part's headers and the calendar's own properties. */
  const CalendarPreamble: string :=
    "Content-Type: text/calendar; method=REQUEST; charset=\"UTF-8\"\r\n"
    + "Content-Transfer-Encoding: 7bit\r\n\r\n"
    + "BEGIN:VCALENDAR\r\nVERSION:2.0\r\nPRODID:-//Blu//Barghman Calendar//EN\r\n"
    + "CALSCALE:GREGORIAN\r\nMETHOD:REQUEST\r\n"

  /** CalendarHeaderContent filled in. */
  function CalendarHeader(boundary: string): string
  {
    Delimiter(boundary) + CalendarPreamble
  }

  const CalendarFooter: string :=
    "STATUS:CONFIRMED\r\nTRANSP:OPAQUE\r\nPRIORITY:5\r\nEND:VEVENT\r\n\r\n"

  const CalendarClose: string := "END:VCALENDAR\r\n"

  /** CalendarEndContent filled in: the end of the calendar and the closing
      delimiter. */
  function CalendarEnd(boundary: string): string
  {
    CalendarClose + CloseDelimiter(boundary)
  }

  /** One content line of an iCalendar object: a property name, its
      parameters (each starting with ';'), ':' and the value. */
  datatype Property = Property(name: string, parameters: string, value: string)

  /** A property as one CRLF-terminated line. */
  function ContentLine(p: Property): string
  {
    p.name + p.parameters + ":" + p.value + CRLF
  }

  /** The properties of CalendarBodyFormat, each value already rendered. */
  function VEvent(uid: string, dtstamp: string, dtstart: string, dtend: string, summary: string,
                  description: string, location: string, organizer: string): seq<Property>
  {
    [ Property("BEGIN", "", "VEVENT"),
      Property("UID", "", uid),
      Property("DTSTAMP", "", dtstamp),
      Property("DTSTART", "", dtstart),
      Property("DTEND", "", dtend),
      Property("SUMMARY", "", summary),
      Property("DESCRIPTION", "", description),
      Property("LOCATION", "", location),
      Property("ORGANIZER", ";CN=Iliya", "mailto:" + organizer) ]
  }

  /** The properties of CalendarBodyFormat for one outage whose times parsed
      as `t`; `stamp` is the clock reading for DTSTAMP. */
  function EventProperties(d: Data, t: Times, stamp: Instant, config: SmtpConfig,
                           persianText: Instant -> string): seq<Property>
  {
    VEvent(Dec(d.outageNumber), UtcStamp(stamp), UtcStamp(t.start), UtcStamp(t.stop), SummaryText(d.address),
           DescriptionText(d.address, t.start, t.stop, d.reasonOutage, persianText), d.address, config.mail)
  }

  /** The event's content lines. */
  function EventBody(d: Data, t: Times, stamp: Instant, config: SmtpConfig,
                     persianText: Instant -> string): string
  {
    ConcatMap(ContentLine, EventProperties(d, t, stamp, config, persianText))
  }

  const AttendeePrefix: string := "ATTENDEE;ROLE=REQ-PARTICIPANT;PARTSTAT=NEEDS-ACTION;RSVP=TRUE:mailto:"

  /** CalendarAttendanceFormat filled in. */
  function AttendeeLine(recipient: string): string
  {
    AttendeePrefix + recipient + CRLF
  }

  /** One ATTENDEE line per recipient, in order. */
  function Attendees(recipients: seq<string>): string
  {
    ConcatMap(AttendeeLine, recipients)
  }

  /** The VEVENT block of one outage whose times parsed as `t`. */
  function EventBlock(d: Data, t: Times, stamp: Instant, config: SmtpConfig, recipients: seq<string>,
                      persianText: Instant -> string): string
  {
    EventBody(d, t, stamp, config, persianText) + Attendees(recipients) + CalendarFooter
  }

  /** What the loop emits for one outage: its block, or nothing when its
      times do not parse. */
  function EventOf(client: MailClient, d: Data, stamp: Instant, recipients: seq<string>,
                   persianText: Instant -> string): (r: string)
    ensures r == "" <==> ParseTime(d, client.loc).err.Some?
    ensures r != "" ==> |r| >= |CalendarFooter| && r[|r| - |CalendarFooter|..] == CalendarFooter
  {
    var t := ParseTime(d, client.loc);
    if t.err.Some? then "" else EventBlock(d, t, stamp, client.config, recipients, persianText)
  }

  /** What the loop over the outages emits. */
  function Events(client: MailClient, data: seq<Data>, stamp: Instant, recipients: seq<string>,
                  persianText: Instant -> string): string
  {
    ConcatMap((d: Data) => EventOf(client, d, stamp, recipients, persianText), data)
  }

  /** The message around a given header text and given events. */
  function Assemble(headers: string, boundary: string, events: string): string
  {
    headers + CalendarHeader(boundary) + events + CalendarEnd(boundary)
  }

  /** The whole message Do hands to Send. */
  function Message(client: MailClient, data: seq<Data>, recipients: seq<string>, boundary: string,
                   stamp: Instant, persianText: Instant -> string): (m: string)
    ensures FramedMessage(m, Headers(client.config, recipients, boundary), boundary)
  {
    var headers := Headers(client.config, recipients, boundary);
    var events := Events(client, data, stamp, recipients, persianText);
    MessageFraming(headers, boundary, events);
    Assemble(headers, boundary, events)
  }

  /** The text assembly of (*Mail).Do: headers, calendar header, one block
      per outage whose times parse, the calendar end. `boundary` is what
      generateBoundary returned and `stamp` the clock reading. */
  method Compose(client: MailClient, data: seq<Data>, recipients: seq<string>, boundary: string,
                 stamp: Instant, persianText: Instant -> string)
    returns (content: string)
    ensures content == Message(client, data, recipients, boundary, stamp, persianText)
  {
    content := Headers(client.config, recipients, boundary);
    content := content + CalendarHeader(boundary);
    ghost var head := content;
    var i := 0;
    while i < |data|
      invariant 0 <= i <= |data|
      invariant content == head + Events(client, data[..i], stamp, recipients, persianText)
    {
      var d := data[i];
      EventsPrefix(client, data, i, stamp, recipients, persianText);
      Associative(head, Events(client, data[..i], stamp, recipients, persianText),
                  EventOf(client, d, stamp, recipients, persianText));
      content := AppendEvent(content, client, d, stamp, recipients, persianText);
      i := i + 1;
    }
    assert data[..|data|] == data;
    var end := CalendarEnd(boundary);
    Associative(Headers(client.config, recipients, boundary), CalendarHeader(boundary),
                Events(client, data, stamp, recipients, persianText));
    content := content + end;
  }

  /** The body of the loop over the outages: the block of an outage whose
      times parse, nothing for one whose times do not. */
  method AppendEvent(content: string, client: MailClient, d: Data, stamp: Instant,
                     recipients: seq<string>, persianText: Instant -> string)
    returns (r: string)
    ensures r == content + EventOf(client, d, stamp, recipients, persianText)
  {
    var t := ParseTime(d, client.loc);
    if t.err.None? {
      r := WriteEvent(content, d, t, stamp, client.config, recipients, persianText);
    } else {
      r := content;
      assert content + "" == content;
    }
  }

  /** The body of the loop over the outages, for one whose times parsed as
      `t`: the event lines, one ATTENDEE line per recipient, the footer. */
  method WriteEvent(content: string, d: Data, t: Times, stamp: Instant, config: SmtpConfig,
                    recipients: seq<string>, persianText: Instant -> string)
    returns (r: string)
    ensures r == content + EventBlock(d, t, stamp, config, recipients, persianText)
  {
    var head := EventBody(d, t, stamp, config, persianText);
    r := content + head;
    var j := 0;
    while j < |recipients|
      invariant 0 <= j <= |recipients|
      invariant r == content + head + Attendees(recipients[..j])
    {
      var line := AttendeeLine(recipients[j]);
      AttendeesPrefix(recipients, j);
      Associative(content + head, Attendees(recipients[..j]), line);
      r := r + line;
      j := j + 1;
    }
    assert recipients[..|recipients|] == recipients;
    var footer := CalendarFooter;
    Associative4(content, head, Attendees(recipients), footer);
    r := r + footer;
  }

  /** Helper: regrouping a three-piece concatenation. */
  lemma Associative(a: string, b: string, c: string)
    ensures a + b + c == a + (b + c)
  {
  }

  /** Helper: regrouping a four-piece concatenation. */
  lemma Associative4(a: string, b: string, c: string, e: string)
    ensures a + b + c + e == a + (b + c + e)
  {
  }

  // ---------------------------------------------------------------------
  // What the message promises

  /** Events distributes over concatenation: the blocks come out in input
      order, one per outage whose times parse and none for the others. */
  lemma EventsAppend(client: MailClient, a: seq<Data>, b: seq<Data>, stamp: Instant,
                     recipients: seq<string>, persianText: Instant -> string)
    ensures Events(client, a + b, stamp, recipients, persianText)
         == Events(client, a, stamp, recipients, persianText) + Events(client, b, stamp, recipients, persianText)
  {
    ConcatMapAppend((d: Data) => EventOf(client, d, stamp, recipients, persianText), a, b);
  }

  /** A single outage yields its block exactly when its times parse. */
  lemma EventsOfOne(client: MailClient, d: Data, stamp: Instant, recipients: seq<string>,
                    persianText: Instant -> string)
    ensures Events(client, [d], stamp, recipients, persianText) == EventOf(client, d, stamp, recipients, persianText)
    ensures ParseTime(d, client.loc).err.Some? ==> Events(client, [d], stamp, recipients, persianText) == ""
    ensures ParseTime(d, client.loc).err.None? ==>
              Events(client, [d], stamp, recipients, persianText)
              == EventBlock(d, ParseTime(d, client.loc), stamp, client.config, recipients, persianText)
  {
    ConcatMapOne((d: Data) => EventOf(client, d, stamp, recipients, persianText), d);
  }

  /** The events of one more outage are those before it and its own. */
  lemma EventsPrefix(client: MailClient, data: seq<Data>, i: nat, stamp: Instant,
                     recipients: seq<string>, persianText: Instant -> string)
    requires i < |data|
    ensures Events(client, data[..i + 1], stamp, recipients, persianText)
         == Events(client, data[..i], stamp, recipients, persianText)
            + EventOf(client, data[i], stamp, recipients, persianText)
  {
    assert data[..i + 1] == data[..i] + [data[i]];
    EventsAppend(client, data[..i], [data[i]], stamp, recipients, persianText);
    EventsOfOne(client, data[i], stamp, recipients, persianText);
  }

  /** The attendee lines distribute over concatenation: one line per
      recipient, in recipient order. */
  lemma AttendeesAppend(a: seq<string>, b: seq<string>)
    ensures Attendees(a + b) == Attendees(a) + Attendees(b)
  {
    ConcatMapAppend(AttendeeLine, a, b);
  }

  /** The attendee lines of one more recipient are those before it and
      its own. */
  lemma AttendeesPrefix(recipients: seq<string>, j: nat)
    requires j < |recipients|
    ensures Attendees(recipients[..j + 1]) == Attendees(recipients[..j]) + AttendeeLine(recipients[j])
  {
    assert recipients[..j + 1] == recipients[..j] + [recipients[j]];
    AttendeesAppend(recipients[..j], [recipients[j]]);
    ConcatMapOne(AttendeeLine, recipients[j]);
  }

  /** The Bcc header names exactly the recipients, in order, when no
      address contains a comma. */
  lemma BccListsRecipients(recipients: seq<string>)
    requires |recipients| >= 1
    requires forall i :: 0 <= i < |recipients| ==> ',' !in recipients[i]
    ensures Split(Bcc(recipients), ',') == recipients
  {
    SplitJoin(recipients, ',');
  }

  /** The headers announce the boundary as the value of the Content-Type
      boundary parameter. */
  lemma HeaderAnnouncesBoundary(config: SmtpConfig, recipients: seq<string>, boundary: string)
    ensures var h := Headers(config, recipients, boundary);
            var fields := HeaderFields(config, recipients);
            && |fields| + |boundary| <= |h|
            && h[|fields|..|fields| + |boundary|] == boundary
  {
    Middle(HeaderFields(config, recipients), boundary, HeaderEnd);
  }

  /** `m` starts with `headers`, then the delimiter that opens the first
      body part, and ends with the closing delimiter. */
  predicate FramedMessage(m: string, headers: string, boundary: string)
  {
    && |headers| + |Delimiter(boundary)| <= |m|
    && m[..|headers|] == headers
    && m[|headers|..|headers| + |Delimiter(boundary)|] == Delimiter(boundary)
    && |CloseDelimiter(boundary)| <= |m|
    && m[|m| - |CloseDelimiter(boundary)|..] == CloseDelimiter(boundary)
  }

  /** One boundary frames the body, whatever the headers and the events:
      the calendar part opens with its delimiter right after the headers,
      and the message ends with its closing delimiter. */
  lemma MessageFraming(headers: string, boundary: string, events: string)
    ensures FramedMessage(Assemble(headers, boundary, events), headers, boundary)
  {
    Framed(headers, Delimiter(boundary), CalendarPreamble, events, CalendarClose, CloseDelimiter(boundary));
  }

  /** Helper: the middle piece of a concatenation sits right after the first. */
  lemma Middle(a: string, b: string, c: string)
    ensures (a + b + c)[|a|..|a| + |b|] == b
  {
    assert (a + b + c)[|a|..|a| + |b|] == (a + b)[|a|..];
  }

  /** Helper: a text built as a, (b, c), x, (y, z) starts with a, then b,
      and ends with z. */
  lemma Framed(a: string, b: string, c: string, x: string, y: string, z: string)
    ensures var m := a + (b + c) + x + (y + z);
            && |a| + |b| <= |m| && |z| <= |m|
            && m[..|a|] == a
            && m[|a|..|a| + |b|] == b
            && m[|m| - |z|..] == z
  {
    var m := a + (b + c) + x + (y + z);
    assert m == a + b + (c + x + y) + z;
    Middle(a, b, c + x + y);
  }

  /** The UID is the printed outage number: a revised outage keeps the UID
      of its first announcement, and two outages never share one. */
  lemma EventUid(d1: Data, t1: Times, stamp1: Instant, d2: Data, t2: Times, stamp2: Instant,
                 config: SmtpConfig, persianText: Instant -> string)
    ensures var u1 := EventProperties(d1, t1, stamp1, config, persianText)[1];
            var u2 := EventProperties(d2, t2, stamp2, config, persianText)[1];
            && u1 == Property("UID", "", Dec(d1.outageNumber))
            && u2 == Property("UID", "", Dec(d2.outageNumber))
            && (u1 == u2 <==> d1.outageNumber == d2.outageNumber)
  {
    EventUidValue(d1, t1, stamp1, config, persianText);
    EventUidValue(d2, t2, stamp2, config, persianText);
    if Dec(d1.outageNumber) == Dec(d2.outageNumber) {
      DecInjective(d1.outageNumber, d2.outageNumber);
    }
  }

  /** An outage's UID property holds its printed outage number. */
  lemma EventUidValue(d: Data, t: Times, stamp: Instant, config: SmtpConfig, persianText: Instant -> string)
    ensures EventProperties(d, t, stamp, config, persianText)[1] == Property("UID", "", Dec(d.outageNumber))
  {
    VEventUid(Dec(d.outageNumber), UtcStamp(stamp), UtcStamp(t.start), UtcStamp(t.stop),
              SummaryText(d.address), DescriptionText(d.address, t.start, t.stop, d.reasonOutage, persianText),
              d.address, config.mail);
  }

  /** The second property of CalendarBodyFormat is the UID. */
  lemma VEventUid(uid: string, dtstamp: string, dtstart: string, dtend: string, summary: string,
                  description: string, location: string, organizer: string)
    ensures VEvent(uid, dtstamp, dtstart, dtend, summary, description, location, organizer)[1]
         == Property("UID", "", uid)
  {
  }

  /** No property of an event is named SEQUENCE, whatever its values. */
  lemma VEventNoSequence(uid: string, dtstamp: string, dtstart: string, dtend: string, summary: string,
                         description: string, location: string, organizer: string)
    ensures forall p :: p in VEvent(uid, dtstamp, dtstart, dtend, summary, description, location, organizer)
                        ==> p.name != "SEQUENCE"
  {
    var ps := VEvent(uid, dtstamp, dtstart, dtend, summary, description, location, organizer);
    forall p | p in ps
      ensures p.name != "SEQUENCE"
    {
      var k :| 0 <= k < |ps| && ps[k] == p;
      assert p.name[0] != 'S' || p.name[1] != 'E';
    }
  }

  /** The event carries no SEQUENCE property, so a revised outage is
      announced under the same UID without a revision number. */
  lemma NoSequenceProperty(d: Data, t: Times, stamp: Instant, config: SmtpConfig,
                           persianText: Instant -> string)
    ensures forall p :: p in EventProperties(d, t, stamp, config, persianText) ==> p.name != "SEQUENCE"
  {
    VEventNoSequence(Dec(d.outageNumber), UtcStamp(stamp), UtcStamp(t.start), UtcStamp(t.stop),
                     SummaryText(d.address), DescriptionText(d.address, t.start, t.stop, d.reasonOutage, persianText),
                     d.address, config.mail);
  }
}
