/** The real-time layer of backend/server.js: the socket handshake gate, the
    connection registry `connectedUsers`, project rooms named
    "project:<projectId>", and the relay of client events to the other sockets
    of a room. Emitted events are appended to an outbox, each with the exact
    set of sockets it reaches. */
module Realtime {
  import opened Common
  import Auth

  /** A value taken from a client payload, as the template literal renders it. */
  type Blob = string

  type SocketId = string

  /** socket.user: findByPk with attributes ['id', 'name', 'email', 'avatar']. */
  datatype SocketUser = SocketUser(id: Id, name: string, email: string, avatar: Option<string>)

  datatype Admission = Admitted(user: SocketUser) | Refused(message: string)

  /** Events a client sends (destructured fields may be undefined). */
  datatype ClientEvent =
    | TaskUpdate(projectId: Option<Blob>, task: Option<Blob>)
    | TaskCreate(projectId: Option<Blob>, task: Option<Blob>)
    | TaskDelete(projectId: Option<Blob>, taskId: Option<Blob>)
    | ProjectUpdate(projectId: Option<Blob>, project: Option<Blob>)
    | CommentAdd(projectId: Option<Blob>, taskId: Option<Blob>, comment: Option<Blob>)
    | CommentTyping(projectId: Option<Blob>, taskId: Option<Blob>)
    | TaskViewing(projectId: Option<Blob>, taskId: Option<Blob>)

  /** Events the server emits. */
  datatype ServerEvent =
    | UserOnline(userId: Id, user: SocketUser)
    | UserOffline(userId: Id)
    | UserJoinedProject(userId: Id, user: SocketUser, projectId: Option<Blob>)
    | TaskUpdated(task: Option<Blob>, updatedBy: SocketUser)
    | TaskCreated(task: Option<Blob>, createdBy: SocketUser)
    | TaskDeleted(taskId: Option<Blob>, deletedBy: SocketUser)
    | ProjectUpdated(project: Option<Blob>, updatedBy: SocketUser)
    | CommentAdded(taskId: Option<Blob>, comment: Option<Blob>, addedBy: SocketUser)
    | CommentUserTyping(taskId: Option<Blob>, user: SocketUser)
    | TaskUserViewing(taskId: Option<Blob>, user: SocketUser)

  /** One emit: the event and the sockets it reaches. */
  datatype Emission = Emission(recipients: set<SocketId>, event: ServerEvent)

  /** A registry entry: { socketId, user }. */
  datatype Entry = Entry(socketId: SocketId, user: SocketUser)

  function ClientEventName(e: ClientEvent): string {
    match e
    case TaskUpdate(_, _) => "task:update"
    case TaskCreate(_, _) => "task:create"
    case TaskDelete(_, _) => "task:delete"
    case ProjectUpdate(_, _) => "project:update"
    case CommentAdd(_, _, _) => "comment:add"
    case CommentTyping(_, _) => "comment:typing"
    case TaskViewing(_, _) => "task:viewing"
  }

  function ServerEventName(e: ServerEvent): string {
    match e
    case UserOnline(_, _) => "user:online"
    case UserOffline(_) => "user:offline"
    case UserJoinedProject(_, _, _) => "user:joined-project"
    case TaskUpdated(_, _) => "task:updated"
    case TaskCreated(_, _) => "task:created"
    case TaskDeleted(_, _) => "task:deleted"
    case ProjectUpdated(_, _) => "project:updated"
    case CommentAdded(_, _, _) => "comment:added"
    case CommentUserTyping(_, _) => "comment:user-typing"
    case TaskUserViewing(_, _) => "task:user-viewing"
  }

  /** The user an emitted relay event names as its author. */
  function Author(e: ServerEvent): Option<SocketUser> {
    match e
    case TaskUpdated(_, u) => Some(u)
    case TaskCreated(_, u) => Some(u)
    case TaskDeleted(_, u) => Some(u)
    case ProjectUpdated(_, u) => Some(u)
    case CommentAdded(_, _, u) => Some(u)
    case CommentUserTyping(_, u) => Some(u)
    case TaskUserViewing(_, u) => Some(u)
    case UserJoinedProject(_, u, _) => Some(u)
    case _ => None
  }

  /** `project:${projectId}`: an undefined id renders as "undefined". */
  function RoomOf(projectId: Option<Blob>): string {
    "project:" + projectId.GetOr("undefined")
  }

  /** Rooms of different rendered ids are different rooms; an undefined id
      and the literal id "undefined" share one. */
  lemma RoomOfInjective(a: Option<Blob>, b: Option<Blob>)
    ensures RoomOf(a) == RoomOf(b) <==> a.GetOr("undefined") == b.GetOr("undefined")
    ensures RoomOf(None) == RoomOf(Some("undefined"))
  {
    var p := "project:";
    if RoomOf(a) == RoomOf(b) {
      assert RoomOf(a)[|p|..] == a.GetOr("undefined");
      assert RoomOf(b)[|p|..] == b.GetOr("undefined");
    }
  }

  /** The relay handlers (server.js:176-237): the room the event goes to and
      the event emitted there. */
  function Relayed(e: ClientEvent, sender: SocketUser): (ServerEvent, string) {
    match e
    case TaskUpdate(p, task) => (TaskUpdated(task, sender), RoomOf(p))
    case TaskCreate(p, task) => (TaskCreated(task, sender), RoomOf(p))
    case TaskDelete(p, taskId) => (TaskDeleted(taskId, sender), RoomOf(p))
    case ProjectUpdate(p, project) => (ProjectUpdated(project, sender), RoomOf(p))
    case CommentAdd(p, taskId, comment) => (CommentAdded(taskId, comment, sender), RoomOf(p))
    case CommentTyping(p, taskId) => (CommentUserTyping(taskId, sender), RoomOf(p))
    case TaskViewing(p, taskId) => (TaskUserViewing(taskId, sender), RoomOf(p))
  }

  /** The relay table: each inbound name maps to its outbound name, the
      event goes to the room of its projectId, and the author is always the
      authenticated socket user, never a client-supplied field. */
  lemma RelayTable(e: ClientEvent, sender: SocketUser)
    ensures var (out, room) := Relayed(e, sender);
      && room == RoomOf(e.projectId)
      && Author(out) == Some(sender)
      && ServerEventName(out) == match ClientEventName(e)
           case "task:update" => "task:updated"
           case "task:create" => "task:created"
           case "task:delete" => "task:deleted"
           case "project:update" => "project:updated"
           case "comment:add" => "comment:added"
           case "comment:typing" => "comment:user-typing"
           case _ => "task:user-viewing"
  {
  }

  /** Distinct inbound kinds stay distinct outbound. */
  lemma RelayKeepsKinds(a: ClientEvent, b: ClientEvent, u: SocketUser)
    requires ClientEventName(a) != ClientEventName(b)
    ensures ServerEventName(Relayed(a, u).0) != ServerEventName(Relayed(b, u).0)
  {
  }

  /** The io.use handshake gate (server.js:109-139). No isActive check is made. */
  function Handshake(token: Option<string>, verify: Option<string> -> Auth.Verified, lookup: Id -> Auth.Lookup): (h: Admission)
    ensures h.Admitted? <==>
      Truthy(token) && verify(token).Decoded? && lookup(verify(token).userId).Found?
    ensures h.Admitted? ==>
      (var u := lookup(verify(token).userId).user; h.user == SocketUser(u.id, u.name, u.email, u.avatar))
    ensures !Truthy(token) ==> h == Refused("Authentication error: No token provided")
    ensures Truthy(token) && verify(token).Falsy? ==> h == Refused("Authentication error: Invalid token")
    ensures Truthy(token) && verify(token).Decoded? && lookup(verify(token).userId).Missing? ==>
      h == Refused("Authentication error: User not found")
  {
    if !Truthy(token) then Refused("Authentication error: No token provided")
    else match verify(token)
      case Throws => Refused("Authentication error")
      case Falsy => Refused("Authentication error: Invalid token")
      case Decoded(id) =>
        match lookup(id)
        case LookupThrows => Refused("Authentication error")
        case Missing => Refused("Authentication error: User not found")
        case Found(u) => Admitted(SocketUser(u.id, u.name, u.email, u.avatar))
  }

  /** A deactivated user whom the HTTP gate turns away with 401 is admitted
      by the socket gate. */
  lemma InactiveUserAdmittedBySocket(token: string, u: Auth.UserRecord)
    requires token != "" && ' ' !in token && !u.isActive
    ensures Handshake(Some(token), _ => Auth.Decoded(u.id), _ => Auth.Found(u)).Admitted?
    ensures !Auth.Protect(Some("Bearer " + token), _ => Auth.Decoded(u.id), _ => Auth.Found(u)).nextCalled
  {
  }

  /** The live sockets, the registry, the room memberships and what was emitted. */
  class RelayServer {
    var sockets: map<SocketId, SocketUser>
    var connectedUsers: map<Id, Entry>
    var rooms: map<string, set<SocketId>>
    var outbox: seq<Emission>

    /** Room members are live sockets; a registry entry names a live socket
        of that user. */
    ghost predicate Valid() reads this {
      && (forall r :: r in rooms ==> rooms[r] <= sockets.Keys)
      && (forall uid :: uid in connectedUsers ==>
            connectedUsers[uid].socketId in sockets && sockets[connectedUsers[uid].socketId].id == uid)
    }

    constructor ()
      ensures Valid()
      ensures sockets == map[] && connectedUsers == map[] && rooms == map[] && outbox == []
    {
      sockets, connectedUsers, rooms, outbox := map[], map[], map[], [];
    }

    function Members(room: string): set<SocketId>
      reads this
    {
      if room in rooms then rooms[room] else {}
    }

    /** The 'connection' handler (server.js:141-155): the entry for the
        user's id is (over)written with this socket, and every other socket
        hears user:online. */
    method Connect(sid: SocketId, user: SocketUser)
      requires Valid() && sid !in sockets
      modifies this
      ensures Valid()
      ensures sockets == old(sockets)[sid := user]
      ensures connectedUsers == old(connectedUsers)[user.id := Entry(sid, user)]
      ensures rooms == old(rooms)
      ensures outbox == old(outbox) + [Emission(old(sockets).Keys, UserOnline(user.id, user))]
    {
      var others := sockets.Keys;
      sockets := sockets[sid := user];
      connectedUsers := connectedUsers[user.id := Entry(sid, user)];
      outbox := outbox + [Emission(others, UserOnline(user.id, user))];
    }

    /** A connection attempt as a whole: the io.use gate (server.js:109-139)
        runs first, and only a socket it admits reaches the 'connection'
        handler, carrying the user the gate attached. */
    method Accept(sid: SocketId, token: Option<string>, verify: Option<string> -> Auth.Verified, lookup: Id -> Auth.Lookup)
      returns (h: Admission)
      requires Valid() && sid !in sockets
      modifies this
      ensures Valid()
      ensures h == Handshake(token, verify, lookup)
      ensures h.Admitted? ==> (
        && sockets == old(sockets)[sid := h.user]
        && connectedUsers == old(connectedUsers)[h.user.id := Entry(sid, h.user)]
        && outbox == old(outbox) + [Emission(old(sockets).Keys, UserOnline(h.user.id, h.user))])
      ensures h.Refused? ==> sockets == old(sockets) && connectedUsers == old(connectedUsers) && outbox == old(outbox)
      ensures rooms == old(rooms)
    {
      h := Handshake(token, verify, lookup);
      if h.Admitted? {
        Connect(sid, h.user);
      }
    }

    /** 'project:join' (server.js:157-167): any live socket may join any
        project room; the room's other members hear user:joined-project. */
    method Join(sid: SocketId, projectId: Option<Blob>)
      requires Valid() && sid in sockets
      modifies this`rooms, this`outbox
      ensures Valid()
      ensures rooms == old(rooms)[RoomOf(projectId) := old(Members(RoomOf(projectId))) + {sid}]
      ensures outbox == old(outbox) + [Emission(old(Members(RoomOf(projectId))) - {sid},
                                                UserJoinedProject(sockets[sid].id, sockets[sid], projectId))]
    {
      var room := RoomOf(projectId);
      var members := Members(room);
      rooms := rooms[room := members + {sid}];
      outbox := outbox + [Emission(members - {sid}, UserJoinedProject(sockets[sid].id, sockets[sid], projectId))];
    }

    /** 'project:leave' (server.js:170-173): silent. */
    method Leave(sid: SocketId, projectId: Option<Blob>)
      requires Valid()
      modifies this`rooms
      ensures Valid()
      ensures var room := RoomOf(projectId);
        rooms == if room in old(rooms) then old(rooms)[room := old(rooms)[room] - {sid}] else old(rooms)
    {
      var room := RoomOf(projectId);
      if room in rooms {
        rooms := rooms[room := rooms[room] - {sid}];
      }
    }

    /** A relay handler: `socket.to(room).emit(...)` reaches the room's
        members except the sender, whether or not the sender joined it. */
    method Relay(sid: SocketId, e: ClientEvent)
      requires Valid() && sid in sockets
      modifies this`outbox
      ensures Valid()
      ensures outbox == old(outbox) + [Emission(Members(RoomOf(e.projectId)) - {sid}, Relayed(e, sockets[sid]).0)]
    {
      RelayTable(e, sockets[sid]);
      var (out, room) := Relayed(e, sockets[sid]);
      outbox := outbox + [Emission(Members(room) - {sid}, out)];
    }

    /** 'disconnect' (server.js:240-250): the socket leaves every room, the
        registry entry under the user's id is deleted, and every remaining
        socket hears user:offline. */
    method Disconnect(sid: SocketId)
      requires Valid() && sid in sockets
      modifies this
      ensures Valid()
      ensures sockets == old(sockets) - {sid}
      ensures rooms == map r | r in old(rooms) :: old(rooms)[r] - {sid}
      ensures connectedUsers == old(connectedUsers) - {old(sockets)[sid].id}
      ensures outbox == old(outbox) + [Emission(sockets.Keys, UserOffline(old(sockets)[sid].id))]
    {
      var user := sockets[sid];
      sockets := sockets - {sid};
      rooms := map r | r in rooms :: rooms[r] - {sid};
      connectedUsers := connectedUsers - {user.id};
      outbox := outbox + [Emission(sockets.Keys, UserOffline(user.id))];
    }
  }

  /** Scenario: one user with two tabs. Closing the first tab removes the
      user from the registry and tells the second tab (and everyone) that
      the user is offline, while the second tab is still connected. */
  method TwoTabsOneCloses() returns (stillConnected: bool, registered: bool, offlineSent: bool)
    ensures stillConnected && !registered && offlineSent
  {
    var server := new RelayServer();
    var u := SocketUser("u1", "Ada", "ada@example.org", None);
    server.Connect("tab-1", u);
    server.Connect("tab-2", u);
    server.Disconnect("tab-1");
    stillConnected := "tab-2" in server.sockets && server.sockets["tab-2"].id == "u1";
    registered := "u1" in server.connectedUsers;
    offlineSent := server.outbox[|server.outbox| - 1].event == UserOffline("u1");
  }

  // ------------------------------------------ registry as evidently intended

  /** A registry that keeps every connection of an identity: the new
      connection joins the identity's earlier ones, and every other
      identity keeps its own. */
  function Register(reg: map<Id, set<SocketId>>, uid: Id, sid: SocketId): (r: map<Id, set<SocketId>>)
    ensures r.Keys == reg.Keys + {uid}
    ensures forall s :: s in r[uid] <==> s == sid || (uid in reg && s in reg[uid])
    ensures forall other :: other in reg && other != uid ==> r[other] == reg[other]
    ensures WellFormed(reg) ==> WellFormed(r)
  {
    reg[uid := (if uid in reg then reg[uid] else {}) + {sid}]
  }

  /** Removes exactly one connection; `offline` says the identity has none left. */
  function Unregister(reg: map<Id, set<SocketId>>, uid: Id, sid: SocketId): (res: (map<Id, set<SocketId>>, bool))
  {
    var rest := (if uid in reg then reg[uid] else {}) - {sid};
    if rest == {} then (reg - {uid}, true) else (reg[uid := rest], false)
  }

  /** The registry holds only non-empty connection sets. */
  ghost predicate WellFormed(reg: map<Id, set<SocketId>>) {
    forall uid :: uid in reg ==> reg[uid] != {}
  }

  /** Unregistering keeps the registry well formed, removes only that
      connection, and reports offline exactly when it was the identity's
      last one. */
  lemma UnregisterRemovesOne(reg: map<Id, set<SocketId>>, uid: Id, sid: SocketId)
    requires WellFormed(reg)
    ensures var (r, offline) := Unregister(reg, uid, sid);
      && WellFormed(r)
      && (offline <==> uid !in reg || reg[uid] <= {sid})
      && (offline <==> uid !in r)
      && (!offline ==> r[uid] == reg[uid] - {sid})
      && (forall other :: other != uid ==> (other in r <==> other in reg) && (other in r ==> r[other] == reg[other]))
  {
    var rest := (if uid in reg then reg[uid] else {}) - {sid};
    if uid in reg && rest == {} {
      forall x | x in reg[uid] ensures x == sid {
        assert x !in rest;
      }
    }
  }

  /** With this registry the two-tab scenario keeps the user online. */
  lemma TwoTabsStayOnline(uid: Id)
    ensures var reg := Register(Register(map[], uid, "tab-1"), uid, "tab-2");
      var (after, offline) := Unregister(reg, uid, "tab-1");
      !offline && uid in after && after[uid] == {"tab-2"}
  {
    var reg := Register(Register(map[], uid, "tab-1"), uid, "tab-2");
    assert reg[uid] == {"tab-1", "tab-2"};
    assert reg[uid] - {"tab-1"} == {"tab-2"};
  }
}
