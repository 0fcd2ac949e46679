/** The request builders of the Google API wrappers (backend/utils/googleApis.js):
    the raw message GmailAPI.sendEmail encodes, its unpadded base64url
    encoding, and the parameter objects of listFiles, listEvents,
    createEvent and the result of listEmails. The Google clients themselves
    are not part of this model; message lookups enter as a function parameter. */
module GoogleApis {
  import opened Common
  import Base64
  import GmailTab

  // ------------------------------------------------------------- message

  /** `[To, Subject, '', body].join('\n')` (googleApis.js:68-73): header lines
      separated by a bare LF, not the CRLF of section 2.1 of RFC 5322. */
  function RawMessage(to: string, subject: string, body: string): string {
    "To: " + to + "\n" + "Subject: " + subject + "\n" + "" + "\n" + body
  }

  /** The message is the two header lines, an empty line, then the body; it
      contains a carriage return only if one of the inputs does. */
  lemma RawMessageLayout(to: string, subject: string, body: string)
    ensures RawMessage(to, subject, body) == "To: " + to + "\nSubject: " + subject + "\n\n" + body
    ensures '\r' !in to + subject + body ==> '\r' !in RawMessage(to, subject, body)
  {
    var m := RawMessage(to, subject, body);
    if '\r' !in to + subject + body {
      forall i | 0 <= i < |m|
        ensures m[i] != '\r'
      {
        var k := i - (4 + |to| + 10);
        if 4 <= i < 4 + |to| {
          assert m[i] == (to + subject + body)[i - 4];
        } else if 4 + |to| + 10 <= i < 4 + |to| + 10 + |subject| {
          assert m[i] == (to + subject + body)[|to| + k];
        } else if 4 + |to| + 10 + |subject| + 2 <= i {
          assert m[i] == (to + subject + body)[i - 16];
        }
      }
    }
  }

  /** The UTF-8 octets of one code point (section 3 of RFC 3629), as
      `Buffer.from(string)` produces them. */
  function Utf8Char(c: char): (r: seq<Base64.byte>)
    ensures 1 <= |r| <= 4
    ensures c as int < 0x80 <==> r == [c as int]
  {
    var v := c as int;
    if v < 0x80 then [v]
    else if v < 0x800 then [0xC0 + v / 64, 0x80 + v % 64]
    else if v < 0x10000 then [0xE0 + v / 4096, 0x80 + v / 64 % 64, 0x80 + v % 64]
    else [0xF0 + v / 262144, 0x80 + v / 4096 % 64, 0x80 + v / 64 % 64, 0x80 + v % 64]
  }

  function Utf8(s: string): (r: seq<Base64.byte>)
    ensures |r| >= |s|
  {
    if s == [] then [] else Utf8Char(s[0]) + Utf8(s[1..])
  }

  /** An ASCII message is encoded octet for octet. */
  lemma {:induction false} Utf8Ascii(s: string)
    requires forall i :: 0 <= i < |s| ==> s[i] as int < 0x80
    ensures |Utf8(s)| == |s|
    ensures forall i :: 0 <= i < |s| ==> Utf8(s)[i] == s[i] as int
  {
    if s != [] {
      Utf8Ascii(s[1..]);
      assert Utf8(s) == [s[0] as int] + Utf8(s[1..]);
      assert forall i :: 1 <= i < |s| ==> s[i] == s[1..][i - 1];
    }
  }

  // ------------------------------------------------------------ encoding

  /** `.replace(/\+/g, '-').replace(/\//g, '_')`. */
  function ToUrlSafe(s: string): (r: string)
    ensures |r| == |s|
    ensures forall i :: 0 <= i < |s| ==> r[i] == (if s[i] == '+' then '-' else if s[i] == '/' then '_' else s[i])
  {
    seq(|s|, i requires 0 <= i < |s| => if s[i] == '+' then '-' else if s[i] == '/' then '_' else s[i])
  }

  /** `.replace(/=+$/, '')`: the run of '=' at the end is removed. */
  function StripPadding(s: string): (r: string)
    ensures r <= s
    ensures r == [] || r[|r| - 1] != '='
    ensures forall i :: |r| <= i < |s| ==> s[i] == '='
  {
    if s != [] && s[|s| - 1] == '=' then StripPadding(s[..|s| - 1]) else s
  }

  /** The `raw` field sendEmail sends (googleApis.js:75-79). */
  function EncodeRaw(message: string): string {
    EncodeOctets(Utf8(message))
  }

  /** `Buffer.toString('base64')` followed by the two replacements and the
      padding removal. */
  function EncodeOctets(b: seq<Base64.byte>): string {
    StripPadding(ToUrlSafe(Base64.Encode(b)))
  }

  lemma {:induction false} StripPaddingOfPadded(x: string, pad: string)
    requires x == [] || x[|x| - 1] != '='
    requires forall i :: 0 <= i < |pad| ==> pad[i] == '='
    ensures StripPadding(x + pad) == x
    decreases |pad|
  {
    if pad != [] {
      assert (x + pad)[..|x + pad| - 1] == x + pad[..|pad| - 1];
      StripPaddingOfPadded(x, pad[..|pad| - 1]);
    } else {
      assert x + pad == x;
    }
  }

  /** The encoding is exactly the URL-safe form (section 5 of RFC 4648) of
      the unpadded standard encoding. */
  lemma EncodeIsUrlSafeUnpadded(b: seq<Base64.byte>)
    ensures EncodeOctets(b) == ToUrlSafe(Base64.Unpadded(b))
  {
    var u := Base64.Unpadded(b);
    var p := Base64.Padding(|b|);
    assert ToUrlSafe(u + p) == ToUrlSafe(u) + p;
    var x := ToUrlSafe(u);
    assert x == [] || x[|x| - 1] != '=' by {
      if x != [] {
        assert Base64.IsLetter(u[|u| - 1]);
      }
    }
    StripPaddingOfPadded(x, p);
  }

  /** The encoded message uses neither '+', '/' nor '=': each '+' became
      '-', each '/' became '_', and the padding is gone. */
  lemma EncodeRawAlphabet(message: string)
    ensures forall i :: 0 <= i < |EncodeRaw(message)| ==>
      EncodeRaw(message)[i] !in {'+', '/', '='}
  {
    EncodeIsUrlSafeUnpadded(Utf8(message));
    var u := Base64.Unpadded(Utf8(message));
    forall i | 0 <= i < |u|
      ensures ToUrlSafe(u)[i] !in {'+', '/', '='}
    {
      assert Base64.IsLetter(u[i]);
    }
  }

  /** The alphabet mapping the Gmail tab applies before decoding gives back
      the standard encoding of the message minus its padding, and decoding
      that yields the message's UTF-8 octets. */
  lemma SendThenRead(message: string)
    ensures GmailTab.FromUrlSafe(EncodeRaw(message)) == StripPadding(Base64.Encode(Utf8(message)))
    ensures GmailTab.FromUrlSafe(EncodeRaw(message)) == Base64.Unpadded(Utf8(message))
    ensures |Base64.Unpadded(Utf8(message))| % 4 != 1
    ensures Base64.Decode(GmailTab.FromUrlSafe(EncodeRaw(message))) == Utf8(message)
  {
    var b := Utf8(message);
    UrlSafeThenBack(b);
    StripIsUnpadded(b);
    Base64.DecodeUnpadded(b);
  }

  /** Mapping the encoding back to the standard alphabet gives the unpadded
      standard encoding. */
  lemma UrlSafeThenBack(b: seq<Base64.byte>)
    ensures GmailTab.FromUrlSafe(EncodeOctets(b)) == Base64.Unpadded(b)
  {
    EncodeIsUrlSafeUnpadded(b);
    UrlSafeRoundTrip(Base64.Unpadded(b));
  }

  /** Stripping the padding of a standard encoding leaves its unpadded form. */
  lemma StripIsUnpadded(b: seq<Base64.byte>)
    ensures StripPadding(Base64.Encode(b)) == Base64.Unpadded(b)
  {
    var u := Base64.Unpadded(b);
    var pad := Base64.Padding(|b|);
    NoTrailingPadding(u);
    assert forall i :: 0 <= i < |pad| ==> pad[i] == '=';
    StripPaddingOfPadded(u, pad);
  }

  /** The two alphabet mappings are inverse on standard base 64 text. */
  lemma UrlSafeRoundTrip(u: string)
    requires forall i :: 0 <= i < |u| ==> Base64.IsLetter(u[i])
    ensures GmailTab.FromUrlSafe(ToUrlSafe(u)) == u
  {
    var r := GmailTab.FromUrlSafe(ToUrlSafe(u));
    forall i | 0 <= i < |u|
      ensures r[i] == u[i]
    {
      assert Base64.IsLetter(u[i]);
    }
  }

  lemma NoTrailingPadding(u: string)
    requires forall i :: 0 <= i < |u| ==> Base64.IsLetter(u[i])
    ensures u == [] || u[|u| - 1] != '='
  {
    if u != [] {
      assert Base64.IsLetter(u[|u| - 1]);
    }
  }

  // ---------------------------------------------------------- parameters

  const FILE_FIELDS := "nextPageToken, files(id, name, mimeType, iconLink, createdTime, modifiedTime, size, webViewLink, thumbnailLink, owners, shared)"

  datatype FileListParams = FileListParams(pageSize: nat, q: string, orderBy: string, fields: string, pageToken: Option<string>)

  /** listFiles' parameters (googleApis.js:112-125); an argument that is
      undefined (None) takes its default, and a falsy page token is left out. */
  function ListFilesParams(pageSize: Option<nat>, query: Option<string>, orderBy: Option<string>, pageToken: Option<string>): FileListParams {
    FileListParams(pageSize.GetOr(50), query.GetOr(""), orderBy.GetOr("modifiedTime desc"), FILE_FIELDS,
                   if Truthy(pageToken) then pageToken else None)
  }

  /** The page token is sent iff it is truthy, and then unchanged. */
  lemma PageTokenOnlyWhenGiven(pageSize: Option<nat>, query: Option<string>, orderBy: Option<string>, pageToken: Option<string>)
    ensures ListFilesParams(pageSize, query, orderBy, pageToken).pageToken.Some? <==> Truthy(pageToken)
    ensures Truthy(pageToken) ==> ListFilesParams(pageSize, query, orderBy, pageToken).pageToken == pageToken
    ensures ListFilesParams(None, None, None, pageToken) == FileListParams(50, "", "modifiedTime desc", FILE_FIELDS, ListFilesParams(None, None, None, pageToken).pageToken)
  {
  }

  datatype EventListParams = EventListParams(calendarId: string, maxResults: nat, singleEvents: bool, orderBy: string,
                                             timeMin: Option<string>, timeMax: Option<string>)

  /** listEvents' parameters (googleApis.js:390-400). */
  function ListEventsParams(maxResults: Option<nat>, timeMin: Option<string>, timeMax: Option<string>): EventListParams {
    EventListParams("primary", maxResults.GetOr(50), true, "startTime",
                    if Truthy(timeMin) then timeMin else None,
                    if Truthy(timeMax) then timeMax else None)
  }

  /** Each bound is sent iff it is given (truthy), and the two are independent. */
  lemma TimeBoundsOnlyWhenGiven(maxResults: Option<nat>, timeMin: Option<string>, timeMax: Option<string>)
    ensures var p := ListEventsParams(maxResults, timeMin, timeMax);
      && (p.timeMin.Some? <==> Truthy(timeMin)) && (p.timeMin.Some? ==> p.timeMin == timeMin)
      && (p.timeMax.Some? <==> Truthy(timeMax)) && (p.timeMax.Some? ==> p.timeMax == timeMax)
      && p.calendarId == "primary" && p.singleEvents && p.orderBy == "startTime"
  {
  }

  datatype EventTime = EventTime(dateTime: string, timeZone: string)
  datatype EventAttendee = EventAttendee(email: string)
  datatype Event = Event(summary: string, description: string, start: EventTime, end: EventTime,
                         attendees: Option<seq<EventAttendee>>)

  /** The event createEvent inserts (googleApis.js:407-434); `systemZone` is
      the time zone the process resolves when none is given. */
  function NewEvent(summary: string, description: string, startTime: string, endTime: string,
                    attendees: seq<string>, timeZone: Option<string>, systemZone: string): Event {
    var zone := OrElse(timeZone, systemZone);
    Event(summary, description, EventTime(startTime, zone), EventTime(endTime, zone),
          if |attendees| > 0 then Some(seq(|attendees|, i requires 0 <= i < |attendees| => EventAttendee(attendees[i])))
          else None)
  }

  /** Attendees appear only for a non-empty list, one {email} per address in
      order; start and end share one time zone. */
  lemma EventAttendees(summary: string, description: string, startTime: string, endTime: string,
                       attendees: seq<string>, timeZone: Option<string>, systemZone: string)
    ensures var e := NewEvent(summary, description, startTime, endTime, attendees, timeZone, systemZone);
      && (e.attendees.Some? <==> attendees != [])
      && (e.attendees.Some? ==> (|e.attendees.value| == |attendees| &&
           forall i :: 0 <= i < |attendees| ==> e.attendees.value[i].email == attendees[i]))
      && e.start.timeZone == e.end.timeZone
      && e.start.timeZone == (if Truthy(timeZone) then timeZone.value else systemZone)
  {
  }

  datatype EmailPage<M> = EmailPage(messages: seq<M>, nextPageToken: Option<string>)

  /** listEmails' result (googleApis.js:26-45): no `messages` field gives an
      empty page with a null token; otherwise each listed id is fetched in
      order and the listing's token is passed on. */
  function ListEmailsResult<M>(listed: Option<seq<Id>>, token: Option<string>, getMessage: Id -> M): EmailPage<M> {
    if listed.None? then EmailPage([], None)
    else EmailPage(seq(|listed.value|, i requires 0 <= i < |listed.value| => getMessage(listed.value[i])), token)
  }

  /** One fetched message per listed id, in the listing's order; an absent
      listing and an empty one both show no messages, but only the absent
      one drops the token. */
  lemma EmailPageFollowsListing<M>(listed: Option<seq<Id>>, token: Option<string>, getMessage: Id -> M)
    ensures var p := ListEmailsResult(listed, token, getMessage);
      && (listed.None? ==> p == EmailPage([], None))
      && (listed.Some? ==> (|p.messages| == |listed.value| && p.nextPageToken == token &&
           forall i :: 0 <= i < |listed.value| ==> p.messages[i] == getMessage(listed.value[i])))
  {
  }
}
