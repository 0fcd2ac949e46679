/** The pure helpers of the Gmail tab (frontend/src/components/workspace/GmailTab.jsx):
    the folder-to-query mapping, header lookup, body selection with the
    URL-safe to standard base64 alphabet mapping, and the sender and subject
    shown in the message list. `atob` is not part of this model and enters
    as a function parameter. */
module GmailTab {
  import opened Common

  datatype Header = Header(name: string, value: string)
  datatype Body = Body(data: Option<string>)
  datatype Part = Part(mimeType: string, body: Body)
  /** A message payload: its own body and its MIME parts, either possibly absent. */
  datatype Payload = Payload(body: Option<Body>, parts: Option<seq<Part>>)

  // -------------------------------------------------------------- query

  /** The search sent by loadEmails (GmailTab.jsx:40-51): a non-empty search
      as typed, else the folder's Gmail operator. */
  function FolderQuery(folder: string, search: string): string {
    if search != "" then search
    else if folder == "INBOX" then "in:inbox"
    else if folder == "SENT" then "in:sent"
    else if folder == "DRAFT" then "in:drafts"
    else if folder == "STARRED" then "is:starred"
    else if folder == "TRASH" then "in:trash"
    else search
  }

  predicate KnownFolder(folder: string) {
    folder in {"INBOX", "SENT", "DRAFT", "STARRED", "TRASH"}
  }

  /** A search overrides the folder; without one each known folder has its
      own non-empty operator and any other folder lists everything. */
  lemma FolderQueries(folder: string, other: string, search: string)
    ensures search != "" ==> FolderQuery(folder, search) == search
    ensures search == "" && KnownFolder(folder) ==> FolderQuery(folder, search) != ""
    ensures search == "" && !KnownFolder(folder) ==> FolderQuery(folder, search) == ""
    ensures search == "" && KnownFolder(folder) && KnownFolder(other) && folder != other ==>
      FolderQuery(folder, search) != FolderQuery(other, search)
  {
    if search == "" && KnownFolder(folder) && KnownFolder(other) && folder != other {
      assert "in:inbox"[3] != "in:sent"[3] && "in:inbox"[3] != "in:drafts"[3] && "in:inbox"[3] != "in:trash"[3];
      assert "in:sent"[3] != "in:drafts"[3] && "in:sent"[3] != "in:trash"[3] && "in:drafts"[3] != "in:trash"[3];
      assert "is:starred"[1] != "in:inbox"[1] && "is:starred"[1] != "in:sent"[1];
      assert "is:starred"[1] != "in:drafts"[1] && "is:starred"[1] != "in:trash"[1];
    }
  }

  // ------------------------------------------------------------- headers

  /** toLowerCase on the ASCII letters. */
  function LowerChar(c: char): char {
    if 'A' <= c <= 'Z' then (c as int + 32) as char else c
  }

  function Lower(s: string): (r: string)
    ensures |r| == |s| && forall i :: 0 <= i < |s| ==> r[i] == LowerChar(s[i])
  {
    seq(|s|, i requires 0 <= i < |s| => LowerChar(s[i]))
  }

  /** Index of the first header whose name equals `name` ignoring case. */
  function FindHeader(headers: seq<Header>, name: string): (r: Option<nat>)
    ensures r.None? <==> forall i :: 0 <= i < |headers| ==> Lower(headers[i].name) != Lower(name)
    ensures r.Some? ==> r.value < |headers| && Lower(headers[r.value].name) == Lower(name)
    ensures r.Some? ==> forall i :: 0 <= i < r.value ==> Lower(headers[i].name) != Lower(name)
  {
    if headers == [] then None
    else if Lower(headers[0].name) == Lower(name) then Some(0)
    else match FindHeader(headers[1..], name)
      case None =>
        assert forall i :: 1 <= i < |headers| ==> headers[i] == headers[1..][i - 1];
        None
      case Some(k) =>
        assert forall i :: 1 <= i < |headers| ==> headers[i] == headers[1..][i - 1];
        Some(k + 1)
  }

  /** getEmailHeader (GmailTab.jsx:94-97). */
  function GetEmailHeader(headers: Option<seq<Header>>, name: string): string {
    if headers.None? then ""
    else match FindHeader(headers.value, name)
      case None => ""
      case Some(k) => headers.value[k].value
  }

  /** The lookup ignores the case of the requested name, answers the value
      of the first matching header, and answers "" when headers are absent
      or none matches. */
  lemma HeaderLookup(headers: Option<seq<Header>>, name: string, other: string)
    ensures Lower(name) == Lower(other) ==> GetEmailHeader(headers, name) == GetEmailHeader(headers, other)
    ensures headers.None? ==> GetEmailHeader(headers, name) == ""
    ensures headers.Some? && (forall i :: 0 <= i < |headers.value| ==> Lower(headers.value[i].name) != Lower(name)) ==>
      GetEmailHeader(headers, name) == ""
    ensures forall k :: (headers.Some? && 0 <= k < |headers.value| && Lower(headers.value[k].name) == Lower(name) &&
      (forall i :: 0 <= i < k ==> Lower(headers.value[i].name) != Lower(name))) ==>
      GetEmailHeader(headers, name) == headers.value[k].value
  {
    if headers.Some? && Lower(name) == Lower(other) {
      var hs := headers.value;
      assert forall i :: 0 <= i < |hs| ==> (Lower(hs[i].name) == Lower(name) <==> Lower(hs[i].name) == Lower(other));
      match FindHeader(hs, name)
      case None =>
      case Some(k) =>
        var j := FindHeader(hs, other).value;
        assert !(j < k) && !(k < j);
    }
  }

  /** "From" and "from" read the same header. */
  lemma FromIgnoresCase(headers: Option<seq<Header>>)
    ensures GetEmailHeader(headers, "From") == GetEmailHeader(headers, "from")
  {
    assert Lower("From") == Lower("from") by {
      assert Lower("From")[0] == LowerChar('F') == 'f';
    }
    HeaderLookup(headers, "From", "from");
  }

  // ---------------------------------------------------------------- body

  /** `data.replace(/-/g, '+').replace(/_/g, '/')`: the URL-safe alphabet
      of section 5 of RFC 4648 back to the standard one of section 4. */
  function FromUrlSafe(s: string): (r: string)
    ensures |r| == |s|
    ensures forall i :: 0 <= i < |s| ==> r[i] == (if s[i] == '-' then '+' else if s[i] == '_' then '/' else s[i])
  {
    seq(|s|, i requires 0 <= i < |s| => if s[i] == '-' then '+' else if s[i] == '_' then '/' else s[i])
  }

  /** Index of the first text/plain part (`parts.find(...)`). */
  function FirstPlainPart(parts: seq<Part>): (r: Option<nat>)
    ensures r.None? <==> forall i :: 0 <= i < |parts| ==> parts[i].mimeType != "text/plain"
    ensures r.Some? ==> r.value < |parts| && parts[r.value].mimeType == "text/plain"
    ensures r.Some? ==> forall i :: 0 <= i < r.value ==> parts[i].mimeType != "text/plain"
  {
    if parts == [] then None
    else if parts[0].mimeType == "text/plain" then Some(0)
    else match FirstPlainPart(parts[1..])
      case None =>
        assert forall i :: 1 <= i < |parts| ==> parts[i] == parts[1..][i - 1];
        None
      case Some(k) =>
        assert forall i :: 1 <= i < |parts| ==> parts[i] == parts[1..][i - 1];
        Some(k + 1)
  }

  /** getEmailBody (GmailTab.jsx:99-112). */
  function GetEmailBody(payload: Payload, atob: string -> string): string {
    if payload.body.Some? && Truthy(payload.body.value.data) then
      atob(FromUrlSafe(payload.body.value.data.value))
    else if payload.parts.Some? && FirstPlainPart(payload.parts.value).Some?
         && Truthy(payload.parts.value[FirstPlainPart(payload.parts.value).value].body.data) then
      atob(FromUrlSafe(payload.parts.value[FirstPlainPart(payload.parts.value).value].body.data.value))
    else "No message body"
  }

  /** The body decodes the payload's own data when present; otherwise only
      the first text/plain part is consulted, so parts of other types and
      later text/plain parts never matter. */
  lemma BodyConsultsFirstPlainPart(p: Payload, q: Payload, atob: string -> string)
    requires p.body == q.body && p.parts.Some? == q.parts.Some?
    requires p.parts.Some? ==> FirstPlainPart(p.parts.value).Some? == FirstPlainPart(q.parts.value).Some?
    requires p.parts.Some? && FirstPlainPart(p.parts.value).Some? ==>
      p.parts.value[FirstPlainPart(p.parts.value).value] == q.parts.value[FirstPlainPart(q.parts.value).value]
    ensures GetEmailBody(p, atob) == GetEmailBody(q, atob)
  {
  }

  /** A first text/plain part without data hides a later one with data. */
  lemma LaterPlainPartIgnored(data: string, atob: string -> string)
    requires data != ""
    ensures GetEmailBody(Payload(None, Some([Part("text/plain", Body(None)), Part("text/plain", Body(Some(data)))])), atob)
      == "No message body"
  {
    assert FirstPlainPart([Part("text/plain", Body(None)), Part("text/plain", Body(Some(data)))]) == Some(0);
  }

  // ------------------------------------------------------------- display

  /** `s.split(c)[0]`: the text before the first `c`. */
  function BeforeFirst(s: string, c: char): (r: string)
    ensures c !in r && r <= s
    ensures r == s || s[|r|] == c
  {
    if s == [] || s[0] == c then []
    else [s[0]] + BeforeFirst(s[1..], c)
  }

  /** The sender shown in the list (GmailTab.jsx:286). */
  function SenderDisplay(from: string): string {
    Trim(BeforeFirst(from, '<'))
  }

  /** "Name <address>" shows the trimmed name; a bare address is shown trimmed. */
  lemma {:induction false} SenderShowsName(name: string, rest: string)
    requires '<' !in name
    ensures SenderDisplay(name + "<" + rest) == Trim(name)
    ensures SenderDisplay(name) == Trim(name)
  {
    BeforeFirstStops(name, rest);
    BeforeFirstStops(name, "");
  }

  lemma {:induction false} BeforeFirstStops(name: string, rest: string)
    requires '<' !in name
    ensures BeforeFirst(name + "<" + rest, '<') == name
    ensures BeforeFirst(name, '<') == name
  {
    if name != [] {
      assert (name + "<" + rest)[1..] == name[1..] + "<" + rest;
      BeforeFirstStops(name[1..], rest);
    }
  }

  /** The subject shown (GmailTab.jsx:295, 314). */
  function SubjectDisplay(subject: string): string {
    if subject == "" then "(no subject)" else subject
  }

  /** A message without a Subject header (or with an empty one) shows
      "(no subject)"; a shown subject is never blank. */
  lemma MissingSubjectShown(headers: Option<seq<Header>>)
    ensures SubjectDisplay(GetEmailHeader(headers, "Subject")) != ""
    ensures headers.None? ==> SubjectDisplay(GetEmailHeader(headers, "Subject")) == "(no subject)"
  {
  }
}
