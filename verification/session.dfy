/** One page talking to the relay: what the page sends, the relay's handler
    for it, and the relay's broadcasts delivered back to the page. */
module Session {
  import opened Protocol
  import opened Text
  import Server
  import BotQuery
  import Client

  lemma DeliverOne(st: Client.ClientState, m: Message)
    ensures Client.Deliver(st, [ChatMessage(m)]) == Client.OnChatMessage(st, m)
  {
  }

  /** A bot query from the page leaves it thinking; delivering the handler's
      broadcasts clears the indicator exactly when the handler finished, and
      the page's history grows by the one bot reply. */
  lemma BotRoundTrip(st: Client.ClientState, outcomes: seq<BotQuery.FetchOutcome>)
    requires !AllWhitespace(st.message) && Client.IsBotQuery(st)
    ensures var asked := Client.SendMessage(st).state;
            var run := BotQuery.Run(outcomes);
            var after := Client.Deliver(asked, run.broadcasts);
            && asked.isBotThinking
            && (after.isBotThinking <==> run.completion.Unresolved?)
            && (run.completion.Unresolved? ==> after.messages == st.messages)
            && (!run.completion.Unresolved? ==>
                  |after.messages| == |st.messages| + 1
                  && after.messages[|st.messages|].username == BotName)
  {
    var asked := Client.SendMessage(st).state;
    assert asked.isBotThinking;
    var run := BotQuery.Run(outcomes);
    match run.completion
    case Unresolved =>
      assert run.broadcasts == [];
    case Answered(t) =>
      assert run.broadcasts == [BotReply(t)];
      DeliverOne(asked, Message(BotName, t));
    case Exhausted =>
      assert run.broadcasts == [BotReply(BotQuery.Apology)];
      DeliverOne(asked, Message(BotName, BotQuery.Apology));
  }

  /** Joining: the name the page sends is registered for its socket, and the
      list the relay broadcasts back becomes the page's user list. */
  lemma JoinRoundTrip(st: Client.ClientState, online: seq<User>, socket: Server.Socket)
    requires !AllWhitespace(st.username)
    ensures var step := Client.HandleSetUsername(st);
            var name := step.sent[0].name;
            var reaction := Server.OnSetUsername(online, socket, name);
            var after := Client.Deliver(step.state, reaction.broadcasts);
            && step.state.isUsernameSet
            && name == Trim(st.username)
            && after.users == reaction.online
            && after.users == online + [User(socket.id, name)]
  {
  }

  /** An ordinary message comes back to the page as typed, untrimmed, under
      the sender's name, appended to the history. */
  lemma ChatRoundTrip(st: Client.ClientState, online: seq<User>, socket: Server.Socket)
    requires !AllWhitespace(st.message) && !Client.IsBotQuery(st)
    ensures var step := Client.SendMessage(st);
            var reaction := Server.OnChatMessage(online, socket, step.sent[0].text);
            var after := Client.Deliver(step.state, reaction.broadcasts);
            && after.messages == st.messages + [Message(Server.Sender(socket), st.message)]
            && after.message == []
  {
  }
}
