/** The relay's per-connection event handlers for `'set username'`,
    `'chat message'` and `'disconnect'`. Each handler invocation is one atomic
    step from the presence list and the socket's state to their new values and
    the events broadcast to every connection, in order. */
module Server {
  import opened Protocol
  import opened Presence

  /** A connection: its id and the name it last set (`socket.username`),
      unset until the first `'set username'`. */
  datatype Socket = Socket(id: SocketId, username: Option<string>)

  /** What one handler invocation leaves behind. */
  datatype Reaction = Reaction(online: seq<User>, socket: Socket, broadcasts: seq<ServerEvent>)

  /** `'set username'`: records the name on the socket, appends an entry to
      the presence list, whatever the name and whether or not the socket
      already has one, and broadcasts the whole list. */
  function OnSetUsername(online: seq<User>, socket: Socket, name: string): (r: Reaction)
    ensures r.socket.id == socket.id && r.socket.username == Some(name)
    ensures |r.online| == |online| + 1 && r.online[..|online|] == online
    ensures r.online[|online|] == User(socket.id, name)
    ensures Count(r.online, socket.id) == Count(online, socket.id) + 1
    ensures r.broadcasts == [UserList(r.online)]
  {
    RegisterCounts(online, socket.id, name, socket.id);
    var users := Register(online, socket.id, name);
    Reaction(users, socket.(username := Some(name)), [UserList(users)])
  }

  /** `socket.username || 'Anonymous'`: an unset name and the empty name are
      both falsy and give the default. */
  function Sender(socket: Socket): (r: string)
    ensures r != []
    ensures socket.username.Some? && socket.username.value != [] ==> r == socket.username.value
    ensures socket.username == None || socket.username == Some([]) ==> r == Anonymous
  {
    match socket.username
    case Some(name) => if name != [] then name else Anonymous
    case None => Anonymous
  }

  /** `'chat message'`: broadcasts the text unchanged under the sender's
      name; the presence list and the socket are untouched. */
  function OnChatMessage(online: seq<User>, socket: Socket, text: string): (r: Reaction)
    ensures r.online == online && r.socket == socket
    ensures |r.broadcasts| == 1 && r.broadcasts[0].ChatMessage?
    ensures r.broadcasts[0].message.text == text
    ensures r.broadcasts[0].message.username == Sender(socket)
  {
    Reaction(online, socket, [ChatMessage(Message(Sender(socket), text))])
  }

  /** `'disconnect'`: when the socket has an entry, drops every entry it has,
      keeps the rest, and broadcasts the new list once; otherwise changes
      nothing and broadcasts nothing. */
  function OnDisconnect(online: seq<User>, socket: Socket): (r: Reaction)
    ensures r.socket == socket
    ensures !Present(r.online, socket.id)
    ensures forall u :: u in r.online <==> u in online && u.id != socket.id
    ensures |r.online| == |online| - Count(online, socket.id)
    ensures Present(online, socket.id) ==> r.broadcasts == [UserList(r.online)]
    ensures !Present(online, socket.id) ==> r.online == online && r.broadcasts == []
  {
    var users := Remove(online, socket.id);
    RemoveCounts(online, socket.id, socket.id);
    assert forall u :: u in users <==> u in online && u.id != socket.id by {
      forall u
        ensures u in users <==> u in online && u.id != socket.id
      {
        RemoveMembers(online, socket.id, u);
      }
    }
    if Present(online, socket.id) then
      Reaction(users, socket, [UserList(users)])
    else
      RemoveAbsent(online, socket.id);
      Reaction(online, socket, [])
  }

  /** Disconnecting keeps the surviving entries in their original relative
      order: the list after a disconnect is the entry-by-entry filter of the
      list before it, whatever way the list is cut in two. */
  lemma DisconnectKeepsOrder(before: seq<User>, after: seq<User>, socket: Socket)
    ensures OnDisconnect(before + after, socket).online
         == Remove(before, socket.id) + Remove(after, socket.id)
  {
    RemoveDistributes(before, after, socket.id);
    if !Present(before + after, socket.id) {
      RemoveAbsent(before + after, socket.id);
    }
  }

  /** A socket that registers twice and then disconnects leaves no entry
      behind, and the list it leaves is the list it found. */
  lemma RegisterTwiceThenDisconnect(online: seq<User>, socket: Socket, first: string, second: string)
    requires !Present(online, socket.id)
    ensures var once := OnSetUsername(online, socket, first);
            var twice := OnSetUsername(once.online, once.socket, second);
            Count(twice.online, socket.id) == 2
            && OnDisconnect(twice.online, twice.socket).online == online
  {
    var once := OnSetUsername(online, socket, first);
    var twice := OnSetUsername(once.online, once.socket, second);
    assert twice.online == online + [User(socket.id, first), User(socket.id, second)];
    RemoveDistributes(online, [User(socket.id, first), User(socket.id, second)], socket.id);
    RemoveAbsent(online, socket.id);
    assert [User(socket.id, first), User(socket.id, second)][1..] == [User(socket.id, second)];
    RemoveSingle(User(socket.id, second), socket.id);
    assert Present(twice.online, socket.id) by {
      assert twice.online[|online|].id == socket.id;
    }
  }

  /** The presence scenario: alice and bob register, alice chats, alice
      leaves. */
  lemma AliceBobScenario()
    ensures var a := Socket("A", None);
            var b := Socket("B", None);
            var r1 := OnSetUsername([], a, "alice");
            var r2 := OnSetUsername(r1.online, b, "bob");
            var r3 := OnChatMessage(r2.online, r1.socket, "hi");
            var r4 := OnDisconnect(r3.online, r1.socket);
            r1.broadcasts == [UserList([User("A", "alice")])]
            && r2.online == [User("A", "alice"), User("B", "bob")]
            && r3.broadcasts == [ChatMessage(Message("alice", "hi"))]
            && r4.online == [User("B", "bob")]
            && r4.broadcasts == [UserList([User("B", "bob")])]
  {
  }
}
