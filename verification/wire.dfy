/** The JSON shape a chat message travels in between the client and the server. */
module Wire {
  import opened Values
  import opened MessageSchema

  /** A POST body, a socket `chat message` payload, or an element of the GET reply as the client reads it. */
  datatype ChatJson = ChatJson(username: Field, message: Field, fileUrl: Field, roomCode: Field)

  /** A stored message as a reader of the GET reply sees it: there is no `roomCode` key. */
  function ToJson(m: Message): ChatJson {
    ChatJson(Some(m.username), m.message, m.fileUrl, None)
  }

  function ToJsonAll(log: seq<Message>): (r: seq<ChatJson>)
    ensures |r| == |log|
  {
    seq(|log|, i requires 0 <= i < |log| => ToJson(log[i]))
  }
}
