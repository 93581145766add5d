/** The message routes: GET the ordered log and POST a new message (server/routes/messages.js). */
module MessageRoutes {
  import opened Values
  import opened MessageSchema
  import opened Wire

  const PostRequired := "Username and message or file are required"

  /** A reply together with the log as it stands afterwards. */
  datatype LogResult = LogResult(reply: Reply<Message>, log: seq<Message>)

  /** The POST guard: a username, and a text or a file. */
  predicate Acceptable(body: ChatJson) {
    Truthy(body.username) && (Truthy(body.message) || Truthy(body.fileUrl))
  }

  /**
   * POST `/`. Only `username`, `message` and `fileUrl` are read from the body; `storeError`
   * is the failure the store reports for the save, if any.
   */
  function PostMessage(log: seq<Message>, body: ChatJson, now: int, storeError: Option<string>): (r: LogResult)
    ensures r.reply.status == 400 <==> !Acceptable(body)
    ensures r.reply.status == 500 <==> Acceptable(body) && storeError.Some?
    ensures r.reply.Error? ==> r.log == log
    ensures r.reply.Ok? <==> Acceptable(body) && storeError.None?
    ensures r.reply.Ok? ==>
      && r.reply.status == 201
      && r.log == log + [r.reply.value]
      && r.reply.value == Message(body.username.value, body.message, body.fileUrl, now)
      && Valid(r.reply.value) && HasContent(r.reply.value)
  {
    if !Acceptable(body) then LogResult(Error(400, PostRequired), log)
    else if storeError.Some? then LogResult(Error(500, storeError.value), log)
    else
      var m := Save(body.username, body.message, body.fileUrl, now).value;
      LogResult(Ok(201, m), log + [m])
  }

  /** The room a body names plays no part in what is stored. */
  lemma PostIgnoresRoomCode(log: seq<Message>, body: ChatJson, roomCode: Field, now: int, storeError: Option<string>)
    ensures PostMessage(log, body.(roomCode := roomCode), now, storeError) == PostMessage(log, body, now, storeError)
  {
  }

  /** Non-decreasing timestamps. */
  predicate Sorted(s: seq<Message>) {
    forall i :: 0 < i < |s| ==> s[i - 1].timestamp <= s[i].timestamp
  }

  /** Puts `m` in front of the first message that is not older than it. */
  function Insert(m: Message, s: seq<Message>): (r: seq<Message>)
    requires Sorted(s)
    ensures Sorted(r)
    ensures multiset(r) == multiset(s) + multiset{m}
    ensures r[0] == m || (s != [] && r[0] == s[0])
  {
    if s == [] || m.timestamp <= s[0].timestamp then [m] + s
    else
      assert s == [s[0]] + s[1..];
      [s[0]] + Insert(m, s[1..])
  }

  /** `.sort({ timestamp: 1 })`: equal timestamps keep their insertion order, one order the store may return. */
  function SortByTime(s: seq<Message>): (r: seq<Message>)
    ensures Sorted(r)
    ensures multiset(r) == multiset(s)
  {
    if s == [] then []
    else
      assert s == [s[0]] + s[1..];
      Insert(s[0], SortByTime(s[1..]))
  }

  /** GET `/`: every stored message, oldest first. */
  function ListMessages(log: seq<Message>, storeError: Option<string>): (r: Reply<seq<Message>>)
    ensures storeError.Some? ==> r == Error(500, storeError.value)
    ensures storeError.None? ==> r.Ok? && r.status == 200 && Sorted(r.value) && multiset(r.value) == multiset(log)
  {
    if storeError.Some? then Error(500, storeError.value) else Ok(200, SortByTime(log))
  }
}
