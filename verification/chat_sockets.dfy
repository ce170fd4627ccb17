/** The team chat (src/socket/chat.sockets.js): a `chat:send` event from a
    connected socket becomes one `chat:new-message` broadcast to the room of
    the sender's team. Nothing is stored and no room membership changes; the
    broadcast is returned as a `Delivery`. `new Date()` is the parameter `now`. */
module ChatSockets {

  import opened Common
  import opened Store
  import opened SocketServer

  /** The `content` field of a `chat:send` payload. */
  datatype Content = Missing | NonString | Text(text: string)

  /** The message broadcast to the team. */
  datatype ChatMessage = ChatMessage(content: string, senderId: Id, teamId: Option<Id>, timestamp: int)

  /** One emission: the room, the event name, the message, and the sockets
      that receive it. */
  datatype Delivery = Delivery(room: string, event: string, message: ChatMessage, receivers: set<string>)

  /** `!content || typeof content !== "string"` fails. */
  predicate ValidContent(c: Content)
  {
    c.Text? && c.text != ""
  }

  /** The message of a valid send: the content as sent, the sender and the
      team taken from the socket's snapshot. */
  function Compose(user: SocketUser, content: string, now: int): (m: ChatMessage)
    ensures m.content == content && m.senderId == user.id && m.teamId == user.teamId && m.timestamp == now
  {
    ChatMessage(content, user.id, user.teamId, now)
  }

  /** `chat:send` from socket `sid`: an invalid payload emits nothing;
      otherwise exactly one `chat:new-message` goes to `team:<sender's team>`
      (rendered "team:null" for a sender without a team), received by exactly
      the sockets in that room. */
  method ChatSend(server: RealtimeServer, sid: string, content: Content, now: int) returns (sent: Option<Delivery>)
    requires sid in server.sockets
    ensures !ValidContent(content) ==> sent.None?
    ensures ValidContent(content) ==>
              var user := server.sockets[sid].user;
              && sent.Some?
              && sent.value.room == TeamRoom(OwnTeam(user))
              && sent.value.event == "chat:new-message"
              && sent.value.message == Compose(user, content.text, now)
              && (forall s :: s in sent.value.receivers <==>
                    s in server.sockets && TeamRoom(OwnTeam(user)) in server.sockets[s].rooms)
  {
    if !ValidContent(content) {
      return None;
    }
    var user := server.sockets[sid].user;
    var room := TeamRoom(OwnTeam(user));
    return Some(Delivery(room, "chat:new-message", Compose(user, content.text, now), RoomMembers(server.sockets, room)));
  }

  /** A socket that is only in other teams' rooms receives nothing, whatever
      the sender put in the payload. */
  lemma OtherTeamsHearNothing(sockets: map<string, SocketState>, sender: SocketUser, other: string, t: Id)
    requires sender.teamId.Some? && other in sockets
    requires forall room :: room in sockets[other].rooms ==> room == TeamRoom(Str(t))
    requires t != sender.teamId.value
    ensures other !in RoomMembers(sockets, TeamRoom(OwnTeam(sender)))
  {
    var mine := TeamRoom(Str(sender.teamId.value));
    var theirs := TeamRoom(Str(t));
    assert mine[5..] == sender.teamId.value && theirs[5..] == t;
    assert mine != theirs;
  }

  /** A sender without a team broadcasts to "team:null", which any socket
      without a team may have joined by sending a null team id. */
  lemma TeamlessSenderRoom(sender: SocketUser)
    requires sender.teamId.None?
    ensures TeamRoom(OwnTeam(sender)) == "team:null"
  {
  }
}
