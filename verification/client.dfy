/** The chat page's state and the transitions its handlers make: the two
    form submissions (`handleSetUsername`, `sendMessage`), the two socket
    listeners (`'chat message'`, `'user list'`) and the input and toggle
    edits. Each transition yields the new state and the events the page
    sends to the relay, in order. */
module Client {
  import opened Protocol
  import opened Text

  /** The text that addresses the bot when the bot is enabled. */
  const BotPrefix: string := "@Gemini"

  /** The start index passed to `substring` to drop the prefix. */
  const PromptStart: nat := 7

  /** The page's React state. */
  datatype ClientState = ClientState(
    username: string,
    isUsernameSet: bool,
    message: string,
    messages: seq<Message>,
    users: seq<User>,
    isBotEnabled: bool,
    isBotThinking: bool)

  /** The state the page starts in. */
  const Initial: ClientState := ClientState("", false, "", [], [], false, false)

  /** A transition's result: the new state and the events sent. */
  datatype ClientStep = ClientStep(state: ClientState, sent: seq<ClientEvent>)

  /** The page starts on the join form with nothing typed, no history and no
      users; sending from there does nothing, and a name typed with spaces
      around it is sent without them. */
  lemma JoinFromInitial()
    ensures !Initial.isUsernameSet && Initial.messages == [] && Initial.users == []
    ensures !Initial.isBotEnabled && !Initial.isBotThinking
    ensures SendMessage(Initial) == ClientStep(Initial, [])
    ensures HandleSetUsername(EditUsername(Initial, " alice "))
         == ClientStep(Initial.(username := " alice ", isUsernameSet := true), [SetUsername("alice")])
  {
    var st := EditUsername(Initial, " alice ");
    assert st.username == " " + "alice" + " ";
    SetUsernameSendsCore(st, " ", "alice", " ");
  }

  /** The prefix `substring` drops is exactly the bot prefix. */
  lemma PromptStartIsPrefixLength()
    ensures PromptStart == |BotPrefix|
  {
  }

  /** Joining: a blank name is ignored; otherwise the trimmed name is sent
      and the page leaves the join form. The stored name is not trimmed. */
  function HandleSetUsername(st: ClientState): (r: ClientStep)
    ensures r.sent == [] <==> AllWhitespace(st.username)
    ensures AllWhitespace(st.username) ==> r.state == st
    ensures !AllWhitespace(st.username) ==>
              && r.state == st.(isUsernameSet := true)
              && |r.sent| == 1 && r.sent[0].SetUsername?
              && r.sent[0].name != [] && Trimmed(r.sent[0].name)
  {
    var name := Trim(st.username);
    if name != [] then ClientStep(st.(isUsernameSet := true), [SetUsername(name)])
    else ClientStep(st, [])
  }

  /** The name sent on joining is the typed name without its whitespace
      margins. */
  lemma SetUsernameSendsCore(st: ClientState, lead: string, name: string, trail: string)
    requires AllWhitespace(lead) && AllWhitespace(trail)
    requires name != [] && Trimmed(name)
    requires st.username == lead + name + trail
    ensures HandleSetUsername(st) == ClientStep(st.(isUsernameSet := true), [SetUsername(name)])
  {
    TrimOfPadded(lead, name, trail);
  }

  /** Whether a non-blank message goes to the bot: only when the bot is
      enabled and the trimmed text starts with the prefix. */
  predicate IsBotQuery(st: ClientState)
  {
    st.isBotEnabled && StartsWith(Trim(st.message), BotPrefix)
  }

  /** Sending: a blank message is ignored and stays in the input. A bot
      query sends the trimmed text after the prefix and marks the bot as
      thinking; any other message goes out as typed, untrimmed. Either way
      the input is cleared. */
  function SendMessage(st: ClientState): (r: ClientStep)
    ensures r.sent == [] <==> AllWhitespace(st.message)
    ensures AllWhitespace(st.message) ==> r.state == st
    ensures !AllWhitespace(st.message) && IsBotQuery(st) ==>
              && r.state == st.(message := [], isBotThinking := true)
              && |r.sent| == 1 && r.sent[0].BotQuery?
              && Trimmed(r.sent[0].prompt)
    ensures !AllWhitespace(st.message) && !IsBotQuery(st) ==>
              && r.state == st.(message := [])
              && r.sent == [SendChat(st.message)]
  {
    var text := Trim(st.message);
    if text == [] then ClientStep(st, [])
    else if st.isBotEnabled && StartsWith(text, BotPrefix) then
      var prompt := Trim(Substring(text, PromptStart));
      ClientStep(st.(isBotThinking := true, message := []), [BotQuery(prompt)])
    else
      ClientStep(st.(message := []), [SendChat(st.message)])
  }

  /** A prefixed message padded with whitespace trims to the prefix and
      the text after it, less that text's trailing whitespace. */
  lemma TrimPrefixedMessage(lead: string, body: string, trail: string)
    requires AllWhitespace(lead) && AllWhitespace(trail)
    ensures Trim(lead + BotPrefix + body + trail) == BotPrefix + TrimEnd(body)
  {
    assert lead + BotPrefix + body + trail == lead + (BotPrefix + body) + trail;
    TrimOfPaddedStart(lead, BotPrefix + body, trail);
    TrimEndKeepsPrefix(BotPrefix, body);
  }

  /** Dropping the prefix from the trimmed message and trimming again gives
      the text after the prefix without its whitespace margins. */
  lemma PromptAfterPrefix(body: string)
    ensures StartsWith(BotPrefix + TrimEnd(body), BotPrefix)
    ensures Trim(Substring(BotPrefix + TrimEnd(body), PromptStart)) == Trim(body)
  {
    var text := BotPrefix + TrimEnd(body);
    assert text[..PromptStart] == BotPrefix;
    assert Substring(text, PromptStart) == TrimEnd(body);
    TrimAfterTrimEnd(body);
  }

  /** The prompt of a bot query is what follows the prefix, without its
      whitespace margins: whitespace around the whole message and between
      the prefix and the question is dropped, and nothing else is. */
  lemma BotQueryPrompt(st: ClientState, lead: string, body: string, trail: string)
    requires st.isBotEnabled
    requires AllWhitespace(lead) && AllWhitespace(trail)
    requires st.message == lead + BotPrefix + body + trail
    ensures SendMessage(st)
         == ClientStep(st.(message := [], isBotThinking := true), [BotQuery(Trim(body))])
  {
    TrimPrefixedMessage(lead, body, trail);
    PromptAfterPrefix(body);
  }

  /** With the bot disabled, even a message that starts with the prefix is
      an ordinary chat message, sent untrimmed. */
  lemma DisabledBotSendsChat(st: ClientState, body: string)
    requires !st.isBotEnabled
    requires st.message == BotPrefix + body
    ensures SendMessage(st) == ClientStep(st.(message := []), [SendChat(BotPrefix + body)])
  {
  }

  /** An incoming `'chat message'` is appended to the history; a reply from
      the bot ends the thinking indicator, any other message leaves it. */
  function OnChatMessage(st: ClientState, msg: Message): (r: ClientState)
    ensures |r.messages| == |st.messages| + 1 && r.messages[..|st.messages|] == st.messages
    ensures r.messages[|st.messages|] == msg
    ensures msg.username == BotName ==> !r.isBotThinking
    ensures msg.username != BotName ==> r.isBotThinking == st.isBotThinking
    ensures r == st.(messages := r.messages, isBotThinking := r.isBotThinking)
  {
    var messages := st.messages + [msg];
    assert messages[..|st.messages|] == st.messages;
    if msg.username == BotName then st.(messages := messages, isBotThinking := false)
    else st.(messages := messages)
  }

  /** An incoming `'user list'` replaces the displayed list wholesale. */
  function OnUserList(st: ClientState, users: seq<User>): (r: ClientState)
    ensures r.users == users
    ensures r == st.(users := r.users)
  {
    st.(users := users)
  }

  /** The bot toggle button flips whether `@Gemini` messages go to the bot. */
  function ToggleBot(st: ClientState): (r: ClientState)
    ensures r.isBotEnabled != st.isBotEnabled
    ensures r == st.(isBotEnabled := r.isBotEnabled)
  {
    st.(isBotEnabled := !st.isBotEnabled)
  }

  /** Typing into the name input. */
  function EditUsername(st: ClientState, value: string): (r: ClientState)
    ensures r.username == value
    ensures r == st.(username := r.username)
  {
    st.(username := value)
  }

  /** Typing into the message input. */
  function EditMessage(st: ClientState, value: string): (r: ClientState)
    ensures r.message == value
    ensures r == st.(message := r.message)
  {
    st.(message := value)
  }

  /** Applies the relay's broadcasts to the page in order, through the two
      socket listeners. */
  function Deliver(st: ClientState, events: seq<ServerEvent>): (r: ClientState)
    ensures r.username == st.username && r.message == st.message
    ensures r.isUsernameSet == st.isUsernameSet && r.isBotEnabled == st.isBotEnabled
    decreases |events|
  {
    if events == [] then st
    else
      var next := match events[0]
        case ChatMessage(m) => OnChatMessage(st, m)
        case UserList(us) => OnUserList(st, us);
      Deliver(next, events[1..])
  }
}
