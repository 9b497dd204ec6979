/** The AI assistant panel of frontend/src/components/AIChatPanel.jsx: its
    storage key, the history it sends with a message, the assistant message
    an outcome produces, and the call it makes. The message-list state is
    the ChatSession.Session class, shared with the Q&A page. */
module AiChatPanel {
  import opened Outcomes
  import opened Text
  import opened ChatSession
  import ChatPage
  import ApiClient
  import VideoActions

  // ---------------------------------------------------------------------------
  // The storage key

  const AiKeyPrefix: string := "video_ai_chat_messages_"

  function AiKey(videoId: string): (k: string)
    ensures StartsWith(k, AiKeyPrefix) && k[|AiKeyPrefix|..] == videoId
  {
    AiKeyPrefix + videoId
  }

  /** The panel's conversation and the page's Q&A conversation are stored
      under different keys, for the same video or any other. */
  lemma KeysNeverShared(a: string, b: string)
    ensures AiKey(a) != ChatPage.ChatKey(b)
  {
    assert AiKey(a)[6] == 'a' && ChatPage.ChatKey(b)[6] == 'c';
  }

  // ---------------------------------------------------------------------------
  // The history sent

  /** `{role, content}` of each message. */
  function HistoryOf(ms: seq<Message>): (h: seq<VideoActions.HistoryEntry>)
    ensures |h| == |ms|
    ensures forall i :: 0 <= i < |ms| ==> h[i] == VideoActions.HistoryEntry(Some(ms[i].role), Some(ms[i].content))
  {
    if ms == [] then [] else [VideoActions.HistoryEntry(Some(ms[0].role), Some(ms[0].content))] + HistoryOf(ms[1..])
  }

  /** `updatedMessages.map(...).slice(0, -1)`: the history of the list with
      the typed message appended, without its last entry. */
  function SentHistory(messages: seq<Message>, input: string): seq<VideoActions.HistoryEntry> {
    var all := HistoryOf(messages + [UserMessage(input)]);
    all[..|all| - 1]
  }

  /** The history sent is every earlier message, and not the one just typed. */
  lemma SentHistoryIsEarlierMessages(messages: seq<Message>, input: string)
    ensures SentHistory(messages, input) == HistoryOf(messages)
  {
    var all := HistoryOf(messages + [UserMessage(input)]);
    assert forall i :: 0 <= i < |messages| ==> (messages + [UserMessage(input)])[i] == messages[i];
  }

  /** The backend reads each sent entry back as the same role and content. */
  lemma HistoryReadBack(ms: seq<Message>)
    ensures forall i :: 0 <= i < |ms| ==>
      VideoActions.FromHistory(HistoryOf(ms)[i]) == VideoActions.ChatMessage(ms[i].role, ms[i].content)
  {
  }

  // ---------------------------------------------------------------------------
  // The call and its outcome

  /** How the call ends: a reply, a server error response (with or without
      an error field), or no response at all (a network failure, or a call
      that throws before any request). */
  datatype CallOutcome = Replied(reply: string) | ServerError(error: Option<string>) | NoResponse

  const DefaultError: string := "Failed to get AI response. Please try again."
  const WarningSign: string := "⚠️ "

  /** The assistant message's text: the reply, or the warning sign with the
      server's error when it is truthy, else with the default text. */
  function AssistantText(o: CallOutcome): (text: string)
    ensures o.Replied? ==> text == o.reply
    ensures o.ServerError? && ApiClient.TruthyText(o.error) ==> text == WarningSign + o.error.value
    ensures !o.Replied? && !(o.ServerError? && ApiClient.TruthyText(o.error)) ==> text == WarningSign + DefaultError
  {
    match o
    case Replied(r) => r
    case ServerError(e) => WarningSign + (if ApiClient.TruthyText(e) then e.value else DefaultError)
    case NoResponse => WarningSign + DefaultError
  }

  function AssistantMessage(o: CallOutcome): (m: Message)
    ensures m.role == "assistant" && m.content == AssistantText(o)
    ensures m.timestampStart.None? && m.timestampEnd.None?
  {
    Message("assistant", AssistantText(o), None, None)
  }

  /** `videoAPI.aiChat(...)` on an object with the given members: when the
      member is missing the call throws a TypeError before any request, which
      the catch receives without a response. */
  function CallAiChat(members: set<string>, server: CallOutcome): (o: CallOutcome)
    ensures "aiChat" in members ==> o == server
    ensures "aiChat" !in members ==> o == NoResponse
  {
    if "aiChat" in members then server else NoResponse
  }

  /** As written the object has no aiChat member, so whatever the backend
      would answer, every send shows the default failure text. */
  lemma AiChatAlwaysFailsAsWritten(server: CallOutcome)
    ensures AssistantText(CallAiChat(ApiClient.VideoApiMembers, server)) == WarningSign + DefaultError
  {
    assert "aiChat" !in ApiClient.VideoApiMembers;
  }

  /** With the member added the backend's outcome reaches the panel: its
      reply, or its error text. */
  lemma AiChatRepaired(server: CallOutcome)
    ensures CallAiChat(ApiClient.RepairedVideoApiMembers, server) == server
    ensures server.Replied? ==> AssistantText(CallAiChat(ApiClient.RepairedVideoApiMembers, server)) == server.reply
  {
  }

  /** handleSend: the request (route, message, history) goes out when the
      object has an aiChat member, and the list grows by the user's message
      and exactly one assistant message. A refused send changes nothing. */
  method HandleSend(s: Session, videoId: string, members: set<string>, server: CallOutcome)
      returns (request: Option<(string, string, seq<VideoActions.HistoryEntry>)>)
    modifies s
    ensures old(s.CanSend()) ==>
      s.messages == old(s.messages) + [UserMessage(old(s.input)), AssistantMessage(CallAiChat(members, server))]
      && s.input == "" && !s.loading
    ensures old(s.CanSend()) && "aiChat" in members ==>
      request == Some((ApiClient.AiChatPath(videoId), old(s.input), HistoryOf(old(s.messages))))
    ensures !old(s.CanSend()) || "aiChat" !in members ==> request.None?
    ensures !old(s.CanSend()) ==>
      s.messages == old(s.messages) && s.input == old(s.input) && s.loading == old(s.loading)
  {
    var earlier := s.messages;
    var sent := s.BeginSend();
    if sent.None? {
      return None;
    }
    var history := SentHistory(earlier, sent.value);
    SentHistoryIsEarlierMessages(earlier, sent.value);
    request := if "aiChat" in members then Some((ApiClient.AiChatPath(videoId), sent.value, history)) else None;
    s.FinishSend(AssistantMessage(CallAiChat(members, server)));
  }
}
