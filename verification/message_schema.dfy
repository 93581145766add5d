/** The stored chat message (server/models/Message.js). */
module MessageSchema {
  import opened Values

  /**
   * A stored message. `message` and `fileUrl` are optional; `timestamp` is the creation
   * time in milliseconds. The schema declares no room field, so no stored message has one.
   */
  datatype Message = Message(username: string, message: Field, fileUrl: Field, timestamp: int)

  /** The schema's validation: `username` is a required string, so it must be non-empty. */
  predicate Valid(m: Message) {
    m.username != ""
  }

  /** What a chat message is meant to carry: a text or a file. */
  predicate HasContent(m: Message) {
    Truthy(m.message) || Truthy(m.fileUrl)
  }

  /**
   * `new Message({ username, message, fileUrl }).save()`: the required validator runs first,
   * and the timestamp defaults to the creation time `now`, since no caller supplies one.
   */
  function Save(username: Field, message: Field, fileUrl: Field, now: int): (r: Option<Message>)
    ensures r.Some? <==> Truthy(username)
    ensures r.Some? ==>
      && Valid(r.value)
      && r.value.username == username.value
      && r.value.message == message && r.value.fileUrl == fileUrl
      && r.value.timestamp == now
  {
    if Truthy(username) then Some(Message(username.value, message, fileUrl, now)) else None
  }
}
