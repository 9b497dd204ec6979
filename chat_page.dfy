/** The pure parts of the video Q&A page frontend/src/pages/Chat.jsx: its
    storage key, the clock text of a timestamp, the PDF link, and the
    assistant message a query produces. The message-list state itself is the
    ChatSession.Session class. */
module ChatPage {
  import opened Outcomes
  import opened Text
  import opened Numeric
  import opened ChatSession
  import ApiClient

  // ---------------------------------------------------------------------------
  // The storage key

  const ChatKeyPrefix: string := "video_chat_messages_"

  /** The localStorage key of a video's conversation. */
  function ChatKey(videoId: string): (k: string)
    ensures StartsWith(k, ChatKeyPrefix) && k[|ChatKeyPrefix|..] == videoId
  {
    ChatKeyPrefix + videoId
  }

  /** Two videos never share a stored conversation. */
  lemma ChatKeyInjective(a: string, b: string)
    ensures ChatKey(a) == ChatKey(b) <==> a == b
  {
    if ChatKey(a) == ChatKey(b) {
      assert a == ChatKey(a)[|ChatKeyPrefix|..];
    }
  }

  // ---------------------------------------------------------------------------
  // formatTime

  /** `s.padStart(n, c)`. */
  function PadStart(s: string, n: nat, c: char): (r: string)
    ensures |s| >= n ==> r == s
    ensures |s| < n ==> |r| == n && r[n - |s|..] == s && forall k :: 0 <= k < n - |s| ==> r[k] == c
    decreases n - |s|
  {
    if |s| >= n then s else PadStart([c] + s, n, c)
  }

  /** formatTime: `${Math.floor(s / 60)}:${Math.floor(s % 60)}` with the
      seconds padded to two characters with '0'. */
  function FormatTime(seconds: real): string {
    var mins := (seconds / 60.0).Floor;
    var secs := JsRemainder(seconds, 60.0).Floor;
    IntToString(mins) + ":" + PadStart(IntToString(secs), 2, '0')
  }

  /** A clock reading of n whole seconds: minutes, ':' and two digits. */
  function Clock(n: nat): (c: string)
    ensures c == NatToString(n / 60) + ":" + [DigitChar(n % 60 / 10), DigitChar(n % 60 % 10)]
  {
    NatToString(n / 60) + ":" + [DigitChar(n % 60 / 10), DigitChar(n % 60 % 10)]
  }

  /** For a nonnegative time, formatTime shows the whole minutes and the
      remaining whole seconds as exactly two digits. */
  lemma FormatTimeIsClock(seconds: real)
    requires seconds >= 0.0
    ensures FormatTime(seconds) == Clock(seconds.Floor)
  {
    var n: nat := seconds.Floor;
    var t := (seconds / 60.0).Floor;
    var r := JsRemainder(seconds, 60.0);
    assert seconds / 60.0 >= 0.0;
    assert r == seconds - 60.0 * (t as real);
    MinutesAndSeconds(seconds, n, t);
    var secs := n - 60 * t;
    assert r.Floor == secs;
    WholeSecondsSplit(n, t, secs);
    TwoDigits(secs);
  }

  /** The floor of s is 60·t plus the floor of the remainder, t being the
      floor of s/60. */
  lemma MinutesAndSeconds(seconds: real, n: int, t: int)
    requires seconds >= 0.0 && n == seconds.Floor && t == (seconds / 60.0).Floor
    ensures 0 <= n - 60 * t < 60
    ensures (seconds - 60.0 * (t as real)).Floor == n - 60 * t
  {
    QuotientBounds(seconds, 60.0, t as real, t as real + 1.0);
  }

  /** Whole seconds n split as 60·t + secs with secs below 60 give t minutes
      and secs seconds. */
  lemma WholeSecondsSplit(n: nat, t: int, secs: int)
    requires secs == n - 60 * t && 0 <= secs < 60
    ensures n / 60 == t && n % 60 == secs
  {
  }

  /** The two-character padding of a seconds count is its two digits. */
  lemma TwoDigits(secs: nat)
    requires secs < 60
    ensures PadStart(IntToString(secs), 2, '0') == [DigitChar(secs / 10), DigitChar(secs % 10)]
  {
    if secs >= 10 {
      assert NatToString(secs) == NatToString(secs / 10) + [DigitChar(secs % 10)];
    }
  }

  /** The text shown under an answer: `formatTime(start) – formatTime(end)`.
      A missing end arrives as JSON null, and formatTime(null) computes with
      null as 0, so it reads "0:00". */
  function TimestampLabel(start: real, finish: Option<real>): (shown: string)
    ensures finish.None? ==> shown == FormatTime(start) + " – 0:00"
  {
    FormatTimeIsClock(0.0);
    assert Clock(0) == "0:00";
    FormatTime(start) + " – " + FormatTime(finish.GetOr(0.0))
  }

  /** For non-negative times the label is two clock readings, the end one
      "0:00" when the end is missing. */
  lemma TimestampLabelClocks(start: real, finish: Option<real>)
    requires start >= 0.0 && (finish.Some? ==> finish.value >= 0.0)
    ensures finish.None? ==> TimestampLabel(start, finish) == Clock(start.Floor) + " – 0:00"
    ensures finish.Some? ==> TimestampLabel(start, finish) == Clock(start.Floor) + " – " + Clock(finish.value.Floor)
  {
    FormatTimeIsClock(start);
    if finish.Some? {
      FormatTimeIsClock(finish.value);
    }
  }

  /** The timestamp is shown when timestamp_start is truthy: present and not 0. */
  predicate TimestampShown(m: Message) {
    m.timestampStart.Some? && m.timestampStart.value != 0.0
  }

  /** `{msg.timestamp_start && (...)}` as React renders it: nothing for a
      missing start, the block's time label for a truthy start, and for a
      start of 0 the value of the expression itself, the text "0". */
  function TimestampAsWritten(m: Message): (shown: string)
    ensures m.timestampStart.None? ==> shown == ""
    ensures m.timestampStart == Some(0.0) ==> shown == "0"
    ensures TimestampShown(m) ==> shown == TimestampLabel(m.timestampStart.value, m.timestampEnd)
  {
    match m.timestampStart
    case None => ""
    case Some(x) => if x == 0.0 then "0" else TimestampLabel(x, m.timestampEnd)
  }

  /** The time label shown whenever the answer has a start, 0 included. */
  function TimestampText(m: Message): (shown: string)
    ensures m.timestampStart.None? ==> shown == ""
    ensures m.timestampStart.Some? ==> shown == TimestampLabel(m.timestampStart.value, m.timestampEnd)
  {
    if m.timestampStart.Some? then TimestampLabel(m.timestampStart.value, m.timestampEnd) else ""
  }

  /** An answer whose top chunk starts at 0 s shows a stray "0" as written,
      and the label "0:00 – …" when corrected. */
  lemma ZeroStartShowsZero(m: Message)
    requires m.timestampStart == Some(0.0)
    ensures TimestampAsWritten(m) == "0"
    ensures TimestampText(m)[..4] == "0:00"
  {
    FormatTimeIsClock(0.0);
    assert Clock(0) == "0:00";
    assert TimestampText(m) == "0:00" + " – " + FormatTime(m.timestampEnd.GetOr(0.0));
  }

  /** The corrected render shows a label exactly when the answer has a start,
      and agrees with the render as written except at a start of 0. */
  lemma TimestampTextShownIffStart(m: Message)
    ensures TimestampText(m) == "" <==> m.timestampStart.None?
    ensures m.timestampStart != Some(0.0) ==> TimestampText(m) == TimestampAsWritten(m)
  {
    if m.timestampStart.Some? {
      assert |TimestampText(m)| >= |" – "|;
    }
  }

  // ---------------------------------------------------------------------------
  // getPdfUrl and handleOpenPdf

  const BackendOrigin: string := "http://localhost:8000"

  /** getPdfUrl: '' for a missing or empty path, an absolute URL unchanged,
      and otherwise the path on the backend's origin. */
  function PdfUrl(fileUrl: Option<string>): (u: string)
    ensures !ApiClient.TruthyText(fileUrl) ==> u == ""
    ensures ApiClient.TruthyText(fileUrl) && StartsWith(fileUrl.value, "http") ==> u == fileUrl.value
    ensures ApiClient.TruthyText(fileUrl) && !StartsWith(fileUrl.value, "http") ==> u == BackendOrigin + fileUrl.value
  {
    if !ApiClient.TruthyText(fileUrl) then ""
    else if StartsWith(fileUrl.value, "http") then fileUrl.value
    else BackendOrigin + fileUrl.value
  }

  /** Every link the page opens is absolute, and resolving a resolved link
      changes nothing. */
  lemma PdfUrlAbsolute(fileUrl: Option<string>)
    ensures PdfUrl(fileUrl) == "" || StartsWith(PdfUrl(fileUrl), "http")
    ensures PdfUrl(Some(PdfUrl(fileUrl))) == PdfUrl(fileUrl)
  {
    var u := PdfUrl(fileUrl);
    if ApiClient.TruthyText(fileUrl) && !StartsWith(fileUrl.value, "http") {
      assert u[..|"http"|] == "http";
    }
  }

  datatype PdfOutcome = OpenTab(url: string) | NotAvailable | CouldNotOpen

  /** handleOpenPdf given the PDF request's outcome: None when the request
      failed, else the record's file field. A missing file alerts, any
      other file opens its link. */
  function OpenPdf(response: Option<Option<string>>): (o: PdfOutcome)
    ensures response.None? <==> o == CouldNotOpen
    ensures o == NotAvailable <==> response.Some? && !ApiClient.TruthyText(response.value)
    ensures o.OpenTab? ==> o.url == PdfUrl(response.value) && StartsWith(o.url, "http")
  {
    match response
    case None => CouldNotOpen
    case Some(file) =>
      if !ApiClient.TruthyText(file) then NotAvailable
      else
        PdfUrlAbsolute(file);
        OpenTab(PdfUrl(file))
  }

  // ---------------------------------------------------------------------------
  // handleSend

  /** The fields of a successful query response the page reads. */
  datatype QueryResponse = QueryResponse(answer: string, timestampStart: Option<real>, timestampEnd: Option<real>)

  const QueryErrorText: string := "Sorry, there was an error processing your question."

  /** The assistant message after the query: the answer with its timestamps,
      or the fixed apology when the request failed. */
  function QueryReply(response: Option<QueryResponse>): (m: Message)
    ensures m.role == "assistant"
    ensures response.Some? ==>
      m.content == response.value.answer
      && m.timestampStart == response.value.timestampStart && m.timestampEnd == response.value.timestampEnd
    ensures response.None? ==> m.content == QueryErrorText && m.timestampStart.None? && m.timestampEnd.None?
  {
    match response
    case Some(r) => Message("assistant", r.answer, r.timestampStart, r.timestampEnd)
    case None => Message("assistant", QueryErrorText, None, None)
  }

  /** A failed query never shows a timestamp. */
  lemma ApologyHasNoTimestamp()
    ensures !TimestampShown(QueryReply(None))
  {
  }

  /** handleSend with the query's outcome: a send posts the typed text to the
      video's query route and the list grows by the user's message and exactly
      one assistant message; a refused send posts nothing and changes nothing. */
  method HandleSend(s: Session, videoId: string, response: Option<QueryResponse>)
      returns (request: Option<(string, string)>)
    modifies s
    ensures old(s.CanSend()) ==>
      request == Some((ApiClient.QueryPath(videoId), old(s.input)))
      && s.messages == old(s.messages) + [UserMessage(old(s.input)), QueryReply(response)]
      && s.input == "" && !s.loading
    ensures !old(s.CanSend()) ==>
      request.None? && s.messages == old(s.messages) && s.input == old(s.input) && s.loading == old(s.loading)
  {
    var sent := Send(s, QueryReply(response));
    request := if sent.Some? then Some((ApiClient.QueryPath(videoId), sent.value)) else None;
  }
}
