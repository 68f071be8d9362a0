/** Records and events exchanged between the chat clients and the relay. */
module Protocol {

  /** An optional value; used for a socket's display name, which is unset until
      the socket registers one. */
  datatype Option<T> = None | Some(value: T)

  /** The opaque identifier socket.io gives each connection. */
  type SocketId = string

  /** One entry of the presence list: `{ id, username }`. */
  datatype User = User(id: SocketId, username: string)

  /** The payload of an outbound `'chat message'`: `{ username, text }`. */
  datatype Message = Message(username: string, text: string)

  /** Events the relay broadcasts to every connection (`io.emit`). */
  datatype ServerEvent =
    | UserList(users: seq<User>)
    | ChatMessage(message: Message)

  /** Events one client sends to the relay (`socket.emit`). */
  datatype ClientEvent =
    | SetUsername(name: string)
    | SendChat(text: string)
    | BotQuery(prompt: string)

  /** Sender name used when a socket never set a (non-empty) name. */
  const Anonymous: string := "Anonymous"

  /** Sender name of every bot reply. */
  const BotName: string := "Gemini Bot"

  /** The broadcast that carries a bot reply. */
  function BotReply(text: string): ServerEvent
  {
    ChatMessage(Message(BotName, text))
  }
}
