/** The realtime server (src/socket/index.js): the handshake that
    authenticates every socket, the room a socket joins on connection, and the
    `join-team-room` / `leave-team-room` events.

    The identity provider's `verifyIdToken` is the parameter `verify`, which
    yields the token's uid, or None where the call throws. Sockets are known
    by their ids; each carries the snapshot of its user taken at the
    handshake and the set of rooms it is in. */
module SocketServer {

  import opened Common
  import opened Text
  import opened Store

  /** `socket.user`: the user's id, team (null when none) and role. */
  datatype SocketUser = SocketUser(id: Id, teamId: Option<Id>, role: Option<Role>)

  /** A connected socket. */
  datatype SocketState = SocketState(user: SocketUser, rooms: set<string>)

  /** The handshake's verdict: the socket's user, or the error passed to `next`. */
  datatype Handshake = Accepted(user: SocketUser) | Denied(message: string)

  /** What `getIO` gives: the server, or the error it throws. */
  datatype IoAccess = Server | NotInitialized(message: string)

  /** `socket.handshake.auth?.token || headers?.authorization?.split(" ")[1]`;
      None stands for every falsy result. */
  function HandshakeToken(authToken: Option<string>, authorization: Option<string>): (r: Option<string>)
    ensures r.Some? ==> r.value != ""
    ensures Truthy(authToken) ==> r == authToken
    ensures !Truthy(authToken) && authorization.Some? && Truthy(SecondField(authorization.value, ' ')) ==>
              r == SecondField(authorization.value, ' ')
    ensures r.None? <==> !Truthy(authToken) && (authorization.None? || !Truthy(SecondField(authorization.value, ' ')))
  {
    if Truthy(authToken) then authToken
    else if authorization.Some? && Truthy(SecondField(authorization.value, ' ')) then SecondField(authorization.value, ' ')
    else None
  }

  /** A header "Bearer <token>" yields the token when no auth token is given. */
  lemma BearerHeaderToken(scheme: string, token: string)
    requires ' ' !in scheme && ' ' !in token && token != ""
    ensures HandshakeToken(None, Some(scheme + " " + token)) == Some(token)
  {
    SecondFieldAfter(scheme, token, ' ');
    SplitNoSeparator(token, ' ');
    assert scheme + " " + token == scheme + [' '] + token;
  }

  /** The snapshot of a user that a socket carries. */
  function Snapshot(u: User): SocketUser
  {
    SocketUser(u.id, if Truthy(u.teamId) then u.teamId else None, u.role)
  }

  /** The authentication middleware registered with `io.use`: a missing token
      is refused before any lookup; a token the provider rejects is "Invalid
      or expired token"; a valid token of no known user is "User not found". */
  function Authenticate(authToken: Option<string>, authorization: Option<string>,
                        verify: string -> Option<string>, users: seq<User>): Handshake
  {
    match HandshakeToken(authToken, authorization)
    case None => Denied("Authentication token missing")
    case Some(token) =>
      match verify(token)
      case None => Denied("Invalid or expired token")
      case Some(uid) =>
        match Find(users, (u: User) => u.firebaseUid == Some(uid))
        case None => Denied("User not found")
        case Some(u) => Accepted(Snapshot(u))
  }

  /** The handshake refuses exactly in the three cases, and an accepted
      socket carries the snapshot of a stored user with the verified uid. */
  lemma AuthenticateOutcomes(authToken: Option<string>, authorization: Option<string>,
                             verify: string -> Option<string>, users: seq<User>)
    ensures var h := Authenticate(authToken, authorization, verify, users);
            var token := HandshakeToken(authToken, authorization);
            && (token.None? ==> h == Denied("Authentication token missing"))
            && (token.Some? && verify(token.value).None? ==> h == Denied("Invalid or expired token"))
            && (token.Some? && verify(token.value).Some? ==>
                  (h == Denied("User not found") <==>
                   forall i :: 0 <= i < |users| ==> users[i].firebaseUid != Some(verify(token.value).value)))
            && (h.Accepted? ==>
                  token.Some? && verify(token.value).Some? &&
                  exists i :: 0 <= i < |users| && users[i].firebaseUid == Some(verify(token.value).value) &&
                              h.user == Snapshot(users[i]))
  {
    var token := HandshakeToken(authToken, authorization);
    if token.Some? && verify(token.value).Some? {
      var uid := verify(token.value).value;
      var p := (u: User) => u.firebaseUid == Some(uid);
      var i := FindIndex(users, p);
      if i.Some? {
        assert Find(users, p) == Some(users[i.value]);
      }
    }
  }

  /** The room of a team: `team:${teamId}` for whatever value the id has. */
  function TeamRoom(teamId: JsVal): string
  {
    "team:" + Render(teamId)
  }

  /** The socket's own team as a payload value compares it: null when none. */
  function OwnTeam(user: SocketUser): JsVal
  {
    if user.teamId.Some? then Str(user.teamId.value) else Null
  }

  /** The rooms a socket is in right after connecting. */
  function InitialRooms(user: SocketUser): (r: set<string>)
    ensures Truthy(user.teamId) ==> r == {TeamRoom(Str(user.teamId.value))}
    ensures !Truthy(user.teamId) ==> r == {}
  {
    if Truthy(user.teamId) then {TeamRoom(Str(user.teamId.value))} else {}
  }

  /** The rule of `join-team-room`: an ADMIN may join any team room, anybody
      else only the room whose id is strictly equal to their own team id. */
  predicate MayJoin(user: SocketUser, target: JsVal)
  {
    user.role == Some(ADMIN) || target == OwnTeam(user)
  }

  /** A non-admin joins exactly their own team's room; a socket without a team
      that sends a null id joins the room "team:null". */
  lemma JoinRule(user: SocketUser, target: JsVal)
    ensures user.role != Some(ADMIN) && user.teamId.Some? ==>
              (MayJoin(user, target) <==> TeamRoom(target) == TeamRoom(Str(user.teamId.value)) && target.Str?)
    ensures user.teamId.None? ==> (MayJoin(user, Null) && TeamRoom(Null) == "team:null")
    ensures user.role != Some(ADMIN) ==> !MayJoin(user, Undefined)
  {
    if user.role != Some(ADMIN) && user.teamId.Some? && target.Str? &&
       TeamRoom(target) == TeamRoom(Str(user.teamId.value)) {
      assert Render(target) == TeamRoom(target)[5..];
      assert user.teamId.value == TeamRoom(Str(user.teamId.value))[5..];
    }
  }

  /** The Socket.IO server and its connected sockets. */
  class RealtimeServer {
    /** `io` has been assigned by `initSocket`. */
    var initialized: bool
    var sockets: map<string, SocketState>

    constructor ()
      ensures !initialized && sockets == map[]
    {
      initialized := false;
      sockets := map[];
    }

    /** `initSocket`: a new server, with no socket yet. */
    method InitSocket()
      modifies this
      ensures initialized && sockets == map[]
    {
      initialized := true;
      sockets := map[];
    }

    /** `getIO`: throws before `initSocket`, the server afterwards. */
    method GetIO() returns (r: IoAccess)
      ensures r == (if initialized then Server else NotInitialized("Socket.IO not initialized"))
    {
      if !initialized {
        return NotInitialized("Socket.IO not initialized");
      }
      return Server;
    }

    /** A connection attempt: the handshake runs; an accepted socket is
        registered with its snapshot and joins its own team's room, if any. */
    method Connect(sid: string, authToken: Option<string>, authorization: Option<string>,
                   verify: string -> Option<string>, users: seq<User>) returns (h: Handshake)
      requires initialized && sid !in sockets
      modifies this
      ensures h == Authenticate(authToken, authorization, verify, users)
      ensures initialized
      ensures h.Denied? ==> sockets == old(sockets)
      ensures h.Accepted? ==> sockets == old(sockets)[sid := SocketState(h.user, InitialRooms(h.user))]
    {
      h := Authenticate(authToken, authorization, verify, users);
      if h.Accepted? {
        sockets := sockets[sid := SocketState(h.user, InitialRooms(h.user))];
      }
    }

    /** `join-team-room`: the socket joins `team:<target>` when the rule
        allows it; otherwise nothing changes. */
    method JoinTeamRoom(sid: string, target: JsVal)
      requires sid in sockets
      modifies this
      ensures initialized == old(initialized)
      ensures MayJoin(old(sockets)[sid].user, target) ==>
                sockets == old(sockets)[sid := old(sockets)[sid].(rooms := old(sockets)[sid].rooms + {TeamRoom(target)})]
      ensures !MayJoin(old(sockets)[sid].user, target) ==> sockets == old(sockets)
    {
      var s := sockets[sid];
      if MayJoin(s.user, target) {
        sockets := sockets[sid := s.(rooms := s.rooms + {TeamRoom(target)})];
      }
    }

    /** `leave-team-room`: the socket leaves `team:<target>`, whoever it is;
        its other rooms and all other sockets stay as they are. */
    method LeaveTeamRoom(sid: string, target: JsVal)
      requires sid in sockets
      modifies this
      ensures initialized == old(initialized)
      ensures sockets == old(sockets)[sid := old(sockets)[sid].(rooms := old(sockets)[sid].rooms - {TeamRoom(target)})]
    {
      var s := sockets[sid];
      sockets := sockets[sid := s.(rooms := s.rooms - {TeamRoom(target)})];
    }

    /** `disconnect`: the socket is gone, and with it its room memberships. */
    method Disconnect(sid: string)
      modifies this
      ensures initialized == old(initialized)
      ensures sockets == old(sockets) - {sid}
    {
      sockets := sockets - {sid};
    }
  }

  /** The sockets in a room. */
  function RoomMembers(sockets: map<string, SocketState>, room: string): (r: set<string>)
    ensures forall sid :: sid in r <==> sid in sockets && room in sockets[sid].rooms
  {
    set sid | sid in sockets && room in sockets[sid].rooms
  }

  /** Every room a non-admin socket is in is its own team's room, and this
      stays so through connecting, joining and leaving. */
  predicate OnlyOwnRoom(s: SocketState)
  {
    s.user.role != Some(ADMIN) ==> forall room :: room in s.rooms ==> room == TeamRoom(OwnTeam(s.user))
  }

  lemma OnlyOwnRoomKept(s: SocketState, target: JsVal)
    requires OnlyOwnRoom(s)
    ensures OnlyOwnRoom(SocketState(s.user, InitialRooms(s.user)))
    ensures MayJoin(s.user, target) ==> OnlyOwnRoom(s.(rooms := s.rooms + {TeamRoom(target)}))
    ensures OnlyOwnRoom(s.(rooms := s.rooms - {TeamRoom(target)}))
  {
  }
}
