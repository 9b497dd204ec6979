/** The message-list state that frontend/src/pages/Chat.jsx and
    frontend/src/components/AIChatPanel.jsx share, line for line: the list
    restored from localStorage under a per-video key (hydration), written
    back only once hydrated, the send guard and the two appends of a send,
    and the confirmed clear. The React effects are modelled as calls the
    caller makes after the state changes that trigger them. */
module ChatSession {
  import opened Outcomes
  import opened Text

  datatype Message = Message(role: string, content: string,
                             timestampStart: Option<real>, timestampEnd: Option<real>)

  /** A user message as the input field gives it. */
  function UserMessage(text: string): Message {
    Message("user", text, None, None)
  }

  /** What localStorage holds under a key, as JSON.parse reads it: a message
      array, another JSON value, the empty string, or text that is not JSON. */
  datatype Stored = MessageArray(messages: seq<Message>) | OtherJson | EmptyText | NotJson

  /** The list hydration restores: a stored array, else the empty list. */
  function Restored(items: map<string, Stored>, key: string): (ms: seq<Message>)
    ensures key in items && items[key].MessageArray? ==> ms == items[key].messages
    ensures !(key in items && items[key].MessageArray?) ==> ms == []
  {
    if key in items && items[key].MessageArray? then items[key].messages else []
  }

  /** The browser's localStorage. */
  class Storage {
    var items: map<string, Stored>

    constructor (initial: map<string, Stored>)
      ensures items == initial
    {
      items := initial;
    }
  }

  /** The input consists of whitespace only; BlankIffTrimEmpty shows this is
      the test `!input.trim()`. */
  predicate Blank(s: string) {
    AllIn(s, JsWhitespace)
  }

  /** One page's conversation: its storage key and its state variables. */
  class Session {
    const key: string
    const store: Storage
    var messages: seq<Message>
    var hydrated: bool
    var input: string
    var loading: bool

    constructor (key: string, store: Storage)
      ensures this.key == key && this.store == store
      ensures messages == [] && !hydrated && input == "" && !loading
    {
      this.key := key;
      this.store := store;
      messages := [];
      hydrated := false;
      input := "";
      loading := false;
    }

    /** Whether handleSend goes ahead. */
    predicate CanSend()
      reads this
    {
      !Blank(input) && !loading
    }

    /** The hydration effect: whatever is stored, the list becomes the stored
        array or empty, and hydration is then done. */
    method Hydrate()
      modifies this
      ensures messages == Restored(store.items, key) && hydrated
      ensures input == old(input) && loading == old(loading)
    {
      hydrated := false;
      var saved := if key in store.items then store.items[key] else EmptyText;
      match saved {
        case MessageArray(ms) =>
          messages := ms;
          hydrated := true;
        case _ =>
          messages := [];
          hydrated := true;
      }
    }

    /** The persistence effect: the list is written under the key once
        hydrated, and nothing is written before. */
    method Persist()
      modifies store
      ensures hydrated ==> store.items == old(store.items)[key := MessageArray(messages)]
      ensures !hydrated ==> store.items == old(store.items)
    {
      if hydrated {
        store.items := store.items[key := MessageArray(messages)];
      }
    }

    /** The synchronous part of handleSend: unless the input is blank or a
        request is in flight, the user's message is appended, the input
        cleared and loading set. The text to send is returned. */
    method BeginSend() returns (sent: Option<string>)
      modifies this
      ensures !old(CanSend()) ==>
        sent.None? && messages == old(messages) && input == old(input) && loading == old(loading)
      ensures old(CanSend()) ==>
        sent == Some(old(input)) && messages == old(messages) + [UserMessage(old(input))]
        && input == "" && loading
      ensures hydrated == old(hydrated)
    {
      if !CanSend() {
        return None;
      }
      sent := Some(input);
      messages := messages + [UserMessage(input)];
      input := "";
      loading := true;
    }

    /** The end of handleSend: the assistant's message is appended and
        loading cleared. */
    method FinishSend(reply: Message)
      modifies this
      ensures messages == old(messages) + [reply] && !loading
      ensures input == old(input) && hydrated == old(hydrated)
    {
      messages := messages + [reply];
      loading := false;
    }

    /** handleClearChat: only a confirmed clear empties the list and removes
        the key. */
    method Clear(confirmed: bool)
      modifies this, store
      ensures confirmed ==> messages == [] && store.items == old(store.items) - {key}
      ensures !confirmed ==> messages == old(messages) && store.items == old(store.items)
      ensures input == old(input) && loading == old(loading) && hydrated == old(hydrated)
    {
      if !confirmed {
        return;
      }
      messages := [];
      store.items := store.items - {key};
    }
  }

  /** Mounting a page: the first persistence effect sees hydration not yet
      done and so cannot overwrite the saved list, which hydration then
      restores and the next persistence effect writes back unchanged. */
  method Mount(key: string, store: Storage) returns (s: Session)
    modifies store
    ensures fresh(s) && s.key == key && s.store == store
    ensures s.messages == Restored(old(store.items), key) && s.hydrated
    ensures key in old(store.items) && old(store.items)[key].MessageArray? ==> store.items == old(store.items)
  {
    s := new Session(key, store);
    s.Persist();
    s.Hydrate();
    s.Persist();
  }

  /** A whole send: the conversation grows by the user's message and then
      exactly one reply; a refused send changes nothing. */
  method Send(s: Session, reply: Message) returns (sent: Option<string>)
    modifies s
    ensures old(s.CanSend()) ==>
      sent == Some(old(s.input)) && s.messages == old(s.messages) + [UserMessage(old(s.input)), reply]
      && s.input == "" && !s.loading
    ensures !old(s.CanSend()) ==>
      sent.None? && s.messages == old(s.messages) && s.input == old(s.input) && s.loading == old(s.loading)
  {
    sent := s.BeginSend();
    if sent.Some? {
      s.FinishSend(reply);
    }
  }

  /** The inputs handleSend refuses for their text, those whose trim() is
      empty, are exactly the whitespace-only ones. */
  lemma BlankIffTrimEmpty(s: string)
    ensures Strip(s, JsWhitespace) == [] <==> Blank(s)
  {
    StripEmptyIffBlank(s, JsWhitespace);
  }
}
