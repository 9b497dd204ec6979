/** The detail actions of backend/api/views.py that need a processed video:
    the guards of query, pdf and ai_chat (status completed first, then the
    request field), pdf's choice between the stored PDF and a new one, and
    the message list ai_chat sends to the chat model. */
module VideoActions {
  import opened Outcomes
  import opened Text
  import opened VideoModels

  const NotCompleteMessage: string := "Video processing not complete"

  // ---------------------------------------------------------------------------
  // Guards

  /** query's 400 error, if any. `question` is None when the field is missing
      or null; an empty question is refused like a missing one. */
  function QueryGuard(status: VideoStatus, question: Option<string>): (r: Option<string>)
    ensures status != Completed ==> r == Some(NotCompleteMessage)
    ensures status == Completed ==> (r.None? <==> question.Some? && question.value != [])
    ensures status == Completed && r.Some? ==> r == Some("Question is required")
  {
    if status != Completed then Some(NotCompleteMessage)
    else if question.None? || question.value == [] then Some("Question is required")
    else None
  }

  /** ai_chat's 400 error, if any. */
  function AiChatGuard(status: VideoStatus, message: Option<string>): (r: Option<string>)
    ensures status != Completed ==> r == Some(NotCompleteMessage)
    ensures status == Completed ==> (r.None? <==> message.Some? && message.value != [])
    ensures status == Completed && r.Some? ==> r == Some("Message is required")
  {
    if status != Completed then Some(NotCompleteMessage)
    else if message.None? || message.value == [] then Some("Message is required")
    else None
  }

  /** The status guard comes first: a video that is not completed is refused
      whatever the request carries. */
  lemma StatusCheckedFirst(status: VideoStatus, text: Option<string>)
    requires status != Completed
    ensures QueryGuard(status, text) == QueryGuard(status, None) == Some(NotCompleteMessage)
    ensures AiChatGuard(status, text) == AiChatGuard(status, None) == Some(NotCompleteMessage)
  {
  }

  datatype PdfAction = RejectPdf(error: string) | ServeStored | GeneratePdf

  const RefreshValues: seq<string> := ["1", "true", "yes"]

  /** `str(refresh).lower() in ['1', 'true', 'yes']`, the parameter defaulting to ''. */
  predicate Refresh(param: Option<string>) {
    Lower(param.GetOr("")) in RefreshValues
  }

  /** pdf: refused unless completed; the stored PDF is served unless a
      refresh is asked for or there is none. */
  function PdfDecision(status: VideoStatus, refreshParam: Option<string>, hasPdf: bool): (a: PdfAction)
    ensures status != Completed <==> a == RejectPdf(NotCompleteMessage)
    ensures status == Completed ==> (a == GeneratePdf <==> Refresh(refreshParam) || !hasPdf)
  {
    if status != Completed then RejectPdf(NotCompleteMessage)
    else if hasPdf && !Refresh(refreshParam) then ServeStored
    else GeneratePdf
  }

  /** The refresh flag ignores ASCII case, and a missing one means no refresh. */
  lemma RefreshIgnoresCase(param: string)
    ensures Refresh(Some(Upper(param))) == Refresh(Some(param))
    ensures !Refresh(None)
    ensures Refresh(Some("TRUE")) && Refresh(Some("Yes")) && !Refresh(Some("0"))
  {
    LowerUpper(param);
    assert Lower("TRUE") == "true";
    assert Lower("Yes") == "yes";
    assert Lower("0") == "0";
  }

  // ---------------------------------------------------------------------------
  // ai_chat message assembly

  const ChatModel: string := "llama-3.3-70b-versatile"
  const MaxTranscriptChars: nat := 12000
  const TruncationMarker: string := "... [transcript truncated]"
  const HistoryWindow: nat := 10

  /** The transcript file: missing, or present with its 'text' key (None
      when absent). */
  datatype Transcript = NoTranscriptFile | TranscriptFile(text: Option<string>)

  function TranscriptText(t: Transcript): string {
    match t
    case NoTranscriptFile => "No transcript available for this video."
    case TranscriptFile(text) => text.GetOr("")
  }

  /** The transcript cut to 12000 characters, with a marker, when longer. */
  function CutTranscript(t: string): (r: string)
    ensures |t| <= MaxTranscriptChars ==> r == t
    ensures |t| > MaxTranscriptChars ==> r == t[..MaxTranscriptChars] + TruncationMarker
    ensures |r| <= MaxTranscriptChars + |TruncationMarker|
  {
    if |t| > MaxTranscriptChars then t[..MaxTranscriptChars] + TruncationMarker else t
  }

  function SystemPrompt(title: string, transcript: string): string {
    "You are a helpful AI assistant. You have access to the transcript of a video titled \"" + title + "\". "
    + "You can answer ANY question the user asks \U{2014} whether it's about the video or any other topic. "
    + "When the question is about the video, use the transcript below as context. "
    + "For other questions, answer using your general knowledge. Be helpful, concise, and friendly.\n\n"
    + "VIDEO TRANSCRIPT (for reference):\n" + transcript
  }

  datatype ChatMessage = ChatMessage(role: string, content: string)

  /** One entry of the request's history; a missing key is None. */
  datatype HistoryEntry = HistoryEntry(role: Option<string>, content: Option<string>)

  /** The message a history entry becomes: role defaults to "user", content to "". */
  function FromHistory(h: HistoryEntry): ChatMessage {
    ChatMessage(h.role.GetOr("user"), h.content.GetOr(""))
  }

  /** How many history entries `history[-10:]` keeps. */
  function Kept(n: nat): (k: nat)
    ensures k <= n && k <= HistoryWindow
    ensures k == n || k == HistoryWindow
  {
    if n < HistoryWindow then n else HistoryWindow
  }

  /** `history[-10:]`: the last (at most) ten entries, in order. */
  function RecentHistory(history: seq<HistoryEntry>): (r: seq<HistoryEntry>)
    ensures |r| == Kept(|history|)
    ensures forall i :: 0 <= i < |r| ==> r[i] == history[|history| - |r| + i]
  {
    history[|history| - Kept(|history|)..]
  }

  function AsMessages(hs: seq<HistoryEntry>): (r: seq<ChatMessage>)
    ensures |r| == |hs| && forall i :: 0 <= i < |hs| ==> r[i] == FromHistory(hs[i])
  {
    if hs == [] then [] else [FromHistory(hs[0])] + AsMessages(hs[1..])
  }

  /** The groq_messages list: the system prompt, the recent history, then the
      user's message. */
  method BuildMessages(title: string, transcript: Transcript, history: seq<HistoryEntry>, message: string)
    returns (msgs: seq<ChatMessage>)
    ensures msgs == [ChatMessage("system", SystemPrompt(title, CutTranscript(TranscriptText(transcript))))]
                    + AsMessages(RecentHistory(history)) + [ChatMessage("user", message)]
  {
    var system := ChatMessage("system", SystemPrompt(title, CutTranscript(TranscriptText(transcript))));
    msgs := AppendHistory([system], RecentHistory(history));
    msgs := msgs + [ChatMessage("user", message)];
  }

  /** The loop over `history[-10:]`: one message per entry, appended in order. */
  method AppendHistory(start: seq<ChatMessage>, recent: seq<HistoryEntry>) returns (msgs: seq<ChatMessage>)
    ensures msgs == start + AsMessages(recent)
  {
    msgs := start;
    var i := 0;
    while i < |recent|
      invariant 0 <= i <= |recent|
      invariant |msgs| == |start| + i && msgs[..|start|] == start
      invariant forall j :: 0 <= j < i ==> msgs[|start| + j] == FromHistory(recent[j])
    {
      msgs := msgs + [FromHistory(recent[i])];
      i := i + 1;
    }
    assert msgs == start + AsMessages(recent);
  }

  /** Indexing a list framed by one message on each side. */
  lemma {:induction false} FramedAt(first: ChatMessage, middle: seq<ChatMessage>, last: ChatMessage)
    ensures var msgs := [first] + middle + [last];
      && |msgs| == |middle| + 2 && msgs[0] == first && msgs[|msgs| - 1] == last
      && (forall j :: 1 <= j <= |middle| ==> msgs[j] == middle[j - 1])
  {
    var msgs := [first] + middle + [last];
    forall j | 1 <= j <= |middle| ensures msgs[j] == middle[j - 1] {
      assert msgs[j] == ([first] + middle)[j];
    }
  }

  /** The list has the system prompt first, the user's message last, at most
      ten history entries between them, the newest ones, in their order. */
  lemma {:induction false} MessageOrder(system: ChatMessage, history: seq<HistoryEntry>, message: string)
    ensures var msgs := [system] + AsMessages(RecentHistory(history)) + [ChatMessage("user", message)];
      var k := Kept(|history|);
      && |msgs| == k + 2 && |msgs| <= HistoryWindow + 2
      && msgs[0] == system && msgs[|msgs| - 1] == ChatMessage("user", message)
      && (forall j :: 1 <= j <= k ==> msgs[j] == FromHistory(history[|history| - k + j - 1]))
  {
    var recent := RecentHistory(history);
    var middle := AsMessages(recent);
    FramedAt(system, middle, ChatMessage("user", message));
    var k := Kept(|history|);
    assert |middle| == k;
    forall i | 0 <= i < k ensures middle[i] == FromHistory(history[|history| - k + i]) {
      assert recent[i] == history[|history| - k + i];
    }
  }
}
