/** The socket handlers: `join room`, `chat message` and `disconnect` (server/index.js). */
module SocketServer {
  import opened Values
  import opened MessageSchema
  import opened Wire

  /** socket.io's `socket.id`: a random string chosen by the transport. */
  type SocketId = string

  /**
   * The live sockets and the rooms each one is in. socket.io puts every socket in a room named
   * by its own id as it connects; a disconnected socket has no entry.
   */
  type Bindings = map<SocketId, set<string>>

  /** Every live socket is in the room named by its own id. */
  predicate SelfBound(sockets: Bindings) {
    forall id :: id in sockets ==> id in sockets[id]
  }

  /** The server-side state the handlers touch: the socket table and the message log. */
  datatype Server = Server(sockets: Bindings, log: seq<Message>)

  /** One emission: the payload and the sockets it reaches. */
  datatype Delivery = Delivery(recipients: set<SocketId>, payload: ChatJson)

  datatype ChatResult = ChatResult(server: Server, delivery: Delivery)

  /** The sockets that joined `room`. */
  function InRoom(sockets: Bindings, room: string): (r: set<SocketId>)
    ensures forall id :: id in r <==> id in sockets && room in sockets[id]
  {
    set id | id in sockets && room in sockets[id]
  }

  /** A new connection: a fresh socket id, in its own room and no other. */
  function Connect(s: Server, id: SocketId): (r: Server)
    requires id !in s.sockets
    ensures r.sockets.Keys == s.sockets.Keys + {id} && r.log == s.log
    ensures InRoom(r.sockets, id) == InRoom(s.sockets, id) + {id}
    ensures forall room :: room != id ==> InRoom(r.sockets, room) == InRoom(s.sockets, room)
    ensures SelfBound(s.sockets) ==> SelfBound(r.sockets)
  {
    Server(s.sockets[id := {id}], s.log)
  }

  /** `socket.join(roomCode)`: the socket is added to the room; nothing is checked or persisted. */
  function JoinSocket(s: Server, id: SocketId, roomCode: string): (r: Server)
    requires id in s.sockets
    ensures r.log == s.log && r.sockets.Keys == s.sockets.Keys
    ensures InRoom(r.sockets, roomCode) == InRoom(s.sockets, roomCode) + {id}
    ensures forall room :: room != roomCode ==> InRoom(r.sockets, room) == InRoom(s.sockets, room)
    ensures SelfBound(s.sockets) ==> SelfBound(r.sockets)
  {
    Server(s.sockets[id := s.sockets[id] + {roomCode}], s.log)
  }

  /** A disconnect: socket.io drops the socket from every room it joined. */
  function Disconnect(s: Server, id: SocketId): (r: Server)
    ensures r.log == s.log && r.sockets.Keys == s.sockets.Keys - {id}
    ensures forall room :: InRoom(r.sockets, room) == InRoom(s.sockets, room) - {id}
    ensures SelfBound(s.sockets) ==> SelfBound(r.sockets)
  {
    Server(map o | o in s.sockets && o != id :: s.sockets[o], s.log)
  }

  /**
   * `chat message`. A room-tagged event is saved as `{ username, message }` and then emitted to
   * the room; if the save is refused (no username, or a store failure) the handler stops before
   * emitting. An untagged event is emitted to every socket and not saved.
   */
  function ChatMessage(s: Server, msg: ChatJson, now: int, storeError: Option<string>): (r: ChatResult)
    ensures r.server.sockets == s.sockets && r.delivery.payload == msg
    ensures !Truthy(msg.roomCode) ==> r.server.log == s.log && r.delivery.recipients == s.sockets.Keys
    ensures Truthy(msg.roomCode) && Truthy(msg.username) && storeError.None? ==>
      && r.server.log == s.log + [Message(msg.username.value, msg.message, None, now)]
      && forall id :: id in r.delivery.recipients <==> id in s.sockets && msg.roomCode.value in s.sockets[id]
    ensures Truthy(msg.roomCode) && !(Truthy(msg.username) && storeError.None?) ==>
      r.server.log == s.log && r.delivery.recipients == {}
  {
    if Truthy(msg.roomCode) then
      match Save(msg.username, msg.message, None, now)
      case None => ChatResult(s, Delivery({}, msg))
      case Some(m) =>
        if storeError.Some? then ChatResult(s, Delivery({}, msg))
        else ChatResult(Server(s.sockets, s.log + [m]), Delivery(InRoom(s.sockets, msg.roomCode.value), msg))
    else ChatResult(s, Delivery(s.sockets.Keys, msg))
  }

  /** A socket that joined the event's room receives it; once disconnected it receives nothing. */
  lemma JoinedSocketReceives(s: Server, id: SocketId, msg: ChatJson, now: int)
    requires id in s.sockets
    requires Truthy(msg.roomCode) && Truthy(msg.username)
    ensures id in ChatMessage(JoinSocket(s, id, msg.roomCode.value), msg, now, None).delivery.recipients
    ensures id !in ChatMessage(Disconnect(s, id), msg, now, None).delivery.recipients
  {
  }

  /** The stored copy of a room-tagged event keeps neither its file nor its room, and may have no content. */
  lemma SocketCopyDropsFile(s: Server, msg: ChatJson, now: int)
    requires Truthy(msg.roomCode) && Truthy(msg.username) && !Truthy(msg.message) && Truthy(msg.fileUrl)
    ensures var log := ChatMessage(s, msg, now, None).server.log;
            |log| == |s.log| + 1 && !HasContent(log[|log| - 1])
  {
  }

  /**
   * A room-tagged event whose room is the id of a live socket reaches that socket, though the
   * socket never joined such a room, and is stored like any other tagged event.
   */
  lemma OwnIdRoomReceives(s: Server, id: SocketId, msg: ChatJson, now: int)
    requires SelfBound(s.sockets) && id in s.sockets
    requires msg.roomCode == Some(id) && id != "" && Truthy(msg.username)
    ensures var r := ChatMessage(s, msg, now, None);
            id in r.delivery.recipients && |r.server.log| == |s.log| + 1
  {
  }
}
